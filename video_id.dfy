/**
 * ExtractVideoID: turn a bare video ID, a youtube.com watch URL or a
 * youtu.be short URL into the video ID, or "" when the input has no known
 * shape. The parts of net/url it calls are modelled as far as they decide
 * the result: where url.Parse puts the raw query and when it fails, and how
 * url.ParseQuery splits, unescapes and rejects a query.
 */
module VideoId {
  import opened Wrappers
  import opened Strings

  const IdLength := 11
  const WatchMarker := "youtube.com/watch"
  const ShortMarker := "youtu.be/"

  /** Eleven bytes with neither `/` nor `.`: taken to be an ID already. */
  predicate IsBareId(input: string) {
    |input| == IdLength && !Contains(input, "/") && !Contains(input, ".")
  }

  /** An ASCII control byte; url.Parse rejects URLs holding one. */
  predicate IsControl(c: char) {
    c < ' ' || c as int == 0x7F
  }

  predicate IsHex(c: char) {
    '0' <= c <= '9' || 'a' <= c <= 'f' || 'A' <= c <= 'F'
  }

  function HexValue(c: char): (v: nat)
    requires IsHex(c)
    ensures v < 16
  {
    if '0' <= c <= '9' then c as int - '0' as int
    else if 'a' <= c <= 'f' then c as int - 'a' as int + 10
    else c as int - 'A' as int + 10
  }

  /** Every `%` is followed by two hexadecimal digits, as net/url's unescape demands. */
  predicate ValidEscapes(s: string) {
    forall i :: 0 <= i < |s| && s[i] == '%' ==> i + 2 < |s| && IsHex(s[i + 1]) && IsHex(s[i + 2])
  }

  /** Dropping a well-escaped prefix of `k` characters keeps the validity of the rest. */
  lemma {:induction false} ValidEscapesDrop(s: string, k: nat)
    requires k <= |s|
    requires forall i :: 0 <= i < k && s[i] == '%' ==> i + 2 < |s| && IsHex(s[i + 1]) && IsHex(s[i + 2])
    requires forall i :: 0 < i < k ==> s[i] != '%'
    ensures ValidEscapes(s) <==> ValidEscapes(s[k..])
  {
    forall i | k <= i < |s|
      ensures s[i] == s[k..][i - k]
    {
    }
  }

  /** Text without `%` keeps the escapes of what it follows valid. */
  lemma {:induction false} ValidEscapesAppend(a: string, b: string)
    requires ValidEscapes(a) && '%' !in b
    ensures ValidEscapes(a + b)
  {
    forall i | |a| <= i < |a + b|
      ensures (a + b)[i] != '%'
    {
      assert (a + b)[i] == b[i - |a|];
    }
  }

  /** url.QueryUnescape: `%XY` becomes the byte XY and `+` a space; a bad escape is an error. */
  function QueryUnescape(s: string): (r: Option<string>)
    ensures r.Some? <==> ValidEscapes(s)
    ensures r.Some? && '%' !in s && '+' !in s ==> r.value == s
    decreases |s|
  {
    if s == [] then
      Some([])
    else if s[0] == '%' then
      if |s| >= 3 && IsHex(s[1]) && IsHex(s[2]) then
        ValidEscapesDrop(s, 3);
        match QueryUnescape(s[3..])
        case None => None
        case Some(t) => Some([(HexValue(s[1]) * 16 + HexValue(s[2])) as char] + t)
      else
        None
    else
      ValidEscapesDrop(s, 1);
      match QueryUnescape(s[1..])
      case None => None
      case Some(t) =>
        assert '%' !in s && '+' !in s ==> s == [s[0]] + s[1..];
        Some([if s[0] == '+' then ' ' else s[0]] + t)
  }

  /** One non-empty `key=value` segment of a query, unescaped; None when it holds `;` or a bad escape. */
  function ParseSegment(segment: string): Option<(string, string)> {
    if Contains(segment, ";") then
      None
    else
      var (key, value, _) := Cut(segment, "=");
      var k, v := QueryUnescape(key), QueryUnescape(value);
      if k.Some? && v.Some? then Some((k.value, v.value)) else None
  }

  /** The pairs of a segment put in front of the pairs of the rest of the query; an empty segment is skipped. */
  function WithSegment(segment: string, tail: Option<seq<(string, string)>>): Option<seq<(string, string)>> {
    if segment == [] then
      tail
    else
      match ParseSegment(segment)
      case None => None
      case Some(pair) => if tail.Some? then Some([pair] + tail.value) else None
  }

  /**
   * url.ParseQuery as ExtractVideoID uses it: the key/value pairs in query
   * order, skipping empty segments, or None when any segment is rejected
   * (ParseQuery then returns an error and the caller ignores the values).
   */
  function ParseQuery(query: string): Option<seq<(string, string)>>
    decreases |query|
  {
    if query == [] then
      Some([])
    else
      var (segment, rest, _) := Cut(query, "&");
      WithSegment(segment, ParseQuery(rest))
  }

  /**
   * A segment url.ParseQuery accepts: an empty one, or one without `;`
   * whose key and value (split at the first `=`) hold only valid escapes.
   */
  predicate SegmentAccepted(segment: string) {
    segment == [] ||
    (!Contains(segment, ";") && ValidEscapes(Cut(segment, "=").0) && ValidEscapes(Cut(segment, "=").1))
  }

  /** A segment's pairs join the rest exactly when the segment and the rest are accepted. */
  lemma {:induction false} WithSegmentAccepts(segment: string, tail: Option<seq<(string, string)>>)
    ensures WithSegment(segment, tail).Some? <==> SegmentAccepted(segment) && tail.Some?
  {
  }

  /**
   * url.ParseQuery succeeds exactly when every `&`-separated segment of the
   * query is accepted.
   */
  lemma {:induction false} ParseQueryAccepts(query: string)
    ensures ParseQuery(query).Some? <==>
      forall k :: 0 <= k < |SplitOn(query, "&")| ==> SegmentAccepted(SplitOn(query, "&")[k])
    decreases |query|
  {
    var parts := SplitOn(query, "&");
    match IndexOf(query, "&")
    case None =>
      SplitFirst(query, "&");
      assert parts == [query];
      IndexOfNoChar(query, '&');
      ParseQueryOneSegment(query);
      WithSegmentAccepts(query, Some([]));
      assert ParseQuery(query).Some? <==> SegmentAccepted(query);
      assert (forall k :: 0 <= k < |parts| ==> SegmentAccepted(parts[k])) <==> SegmentAccepted(parts[0]);
    case Some(i) =>
      SplitAtFirst(query, "&", i);
      var rest := query[i + 1..];
      ParseQueryAccepts(rest);
      WithSegmentAccepts(query[..i], ParseQuery(rest));
      assert forall k :: 1 <= k < |parts| ==> parts[k] == SplitOn(rest, "&")[k - 1];
  }

  /** url.Values.Get: the first value given for `key`, or "". */
  function Get(pairs: seq<(string, string)>, key: string): (v: string)
    ensures forall i :: 0 <= i < |pairs| && pairs[i].0 == key && (forall j :: 0 <= j < i ==> pairs[j].0 != key) ==>
      v == pairs[i].1
    ensures (forall i :: 0 <= i < |pairs| ==> pairs[i].0 != key) ==> v == ""
    decreases |pairs|
  {
    if pairs == [] then ""
    else if pairs[0].0 == key then pairs[0].1
    else Get(pairs[1..], key)
  }

  /** A letter, which a URL scheme must start with. */
  predicate IsSchemeLetter(c: char) {
    'a' <= c <= 'z' || 'A' <= c <= 'Z'
  }

  /** A character allowed in a URL scheme after its first letter. */
  predicate IsSchemeChar(c: char) {
    IsSchemeLetter(c) || '0' <= c <= '9' || c == '+' || c == '-' || c == '.'
  }

  /** The length of the longest prefix made of scheme characters. */
  function SchemeCharsPrefix(u: string): (k: nat)
    ensures k <= |u|
    ensures forall j :: 0 <= j < k ==> IsSchemeChar(u[j])
    ensures k < |u| ==> !IsSchemeChar(u[k])
    decreases |u|
  {
    if u != [] && IsSchemeChar(u[0]) then
      var k := SchemeCharsPrefix(u[1..]);
      assert forall j :: 1 <= j < k + 1 ==> u[j] == u[1..][j - 1];
      k + 1
    else
      0
  }

  /** url.Parse's getScheme finds a scheme: a letter, scheme characters, then `:`. */
  predicate HasScheme(u: string) {
    u != [] && IsSchemeLetter(u[0]) && SchemeCharsPrefix(u) < |u| && u[SchemeCharsPrefix(u)] == ':'
  }

  /**
   * Whether url.Parse accepts the text before the first `?` (and `#`). A
   * leading `:` is a missing scheme. After a scheme, a rest that does not
   * start with `/` is opaque and never unescaped. Without a scheme, a `:` in
   * the first path segment is refused. Otherwise every escape of the
   * authority and the path must be valid.
   */
  predicate PathAccepted(path: string) {
    if path != [] && path[0] == ':' then
      false
    else if HasScheme(path) then
      var rest := path[SchemeCharsPrefix(path) + 1..];
      !HasPrefix(rest, "/") || ValidEscapes(rest)
    else
      !Contains(Cut(path, "/").0, ":") && ValidEscapes(path)
  }

  /**
   * The raw query url.Parse records: the text after the first `?` of the
   * part before the first `#`. The parse fails on a control byte before the
   * `#`, on a path it does not accept, and on a bad escape in the fragment.
   */
  function RawQuery(raw: string): Option<string> {
    var (u, fragment, _) := Cut(raw, "#");
    if exists i :: 0 <= i < |u| && IsControl(u[i]) then
      None
    else
      var (path, query, _) := Cut(u, "?");
      if PathAccepted(path) && ValidEscapes(fragment) then Some(query) else None
  }

  /** A scheme followed by `:` is found as such, and what follows the `:` is the rest. */
  lemma {:induction false} SchemeFound(scheme: string, rest: string)
    requires scheme != [] && IsSchemeLetter(scheme[0])
    requires forall j :: 0 <= j < |scheme| ==> IsSchemeChar(scheme[j])
    ensures HasScheme(scheme + ":" + rest) && SchemeCharsPrefix(scheme + ":" + rest) == |scheme|
    ensures (scheme + ":" + rest)[|scheme| + 1..] == rest
  {
    var u := scheme + ":" + rest;
    assert forall j :: 0 <= j < |scheme| ==> u[j] == scheme[j];
    assert u[|scheme|] == ':';
    var k := SchemeCharsPrefix(u);
    assert k <= |scheme|;
    assert k >= |scheme|;
  }

  /**
   * After a scheme, a rest that does not start with `/` is opaque: url.Parse
   * accepts it whatever escapes it holds.
   */
  lemma {:induction false} OpaqueSkipsEscapes(scheme: string, rest: string)
    requires scheme != [] && IsSchemeLetter(scheme[0])
    requires forall j :: 0 <= j < |scheme| ==> IsSchemeChar(scheme[j])
    requires !HasPrefix(rest, "/")
    ensures PathAccepted(scheme + ":" + rest)
  {
    SchemeFound(scheme, rest);
  }

  /** A leading `:` is url.Parse's missing-scheme error. */
  lemma {:induction false} MissingSchemeRejected(raw: string)
    requires raw != [] && raw[0] == ':'
    ensures RawQuery(raw) == None
  {
    var (u, fragment, _) := Cut(raw, "#");
    assert u != [] && u[0] == ':';
    var (path, query, _) := Cut(u, "?");
    assert path != [] && path[0] == ':';
  }

  /**
   * An opaque URL keeps its query even though its path holds a bad escape:
   * `https:youtube.com/watch%?v=VO6XEQIsCoM` has raw query `v=VO6XEQIsCoM`.
   */
  lemma {:induction false} OpaqueUrlExample(raw: string)
    requires raw == "https:youtube.com/watch%?v=VO6XEQIsCoM"
    ensures RawQuery(raw) == Some("v=VO6XEQIsCoM")
  {
    var path, query := "https:youtube.com/watch%", "v=VO6XEQIsCoM";
    OpaqueUrlParts(raw, path, query);
    var scheme := "https";
    assert forall j :: 0 <= j < |scheme| ==> IsSchemeChar(scheme[j]);
    OpaqueSkipsEscapes(scheme, "youtube.com/watch%");
    RawQueryAfterMark(path, query);
  }

  /** The pieces of the opaque example. */
  lemma {:induction false} OpaqueUrlParts(raw: string, path: string, query: string)
    requires raw == "https:youtube.com/watch%?v=VO6XEQIsCoM"
    requires path == "https:youtube.com/watch%" && query == "v=VO6XEQIsCoM"
    ensures raw == path + "?" + query && path == "https" + ":" + "youtube.com/watch%"
    ensures !HasPrefix("youtube.com/watch%", "/") && '?' !in path
    ensures forall i :: 0 <= i < |path| ==> !IsControl(path[i]) && path[i] != '#'
    ensures forall i :: 0 <= i < |query| ==> !IsControl(query[i]) && query[i] != '#'
  {
    assert "youtube.com/watch%"[0] != '/';
  }

  /** Without a scheme, a `:` before the first `/` makes url.Parse fail. */
  lemma {:induction false} ColonInFirstSegmentRejected(path: string, i: nat)
    requires !HasScheme(path)
    requires i < |path| && path[i] == ':' && '/' !in path[..i]
    ensures !PathAccepted(path)
  {
    var r := Cut(path, "/");
    assert forall j :: 0 <= j < i ==> path[j] != '/' by {
      assert forall j :: 0 <= j < i ==> path[j] == path[..i][j];
    }
    if r.2 {
      assert path[|r.0|] == '/';
    }
    assert r.0[i] == ':';
    OccursChar(r.0, ':', i);
    ContainsAt(r.0, ":", i);
  }

  /** What the watch-URL branch yields: the value of `v`, or "" when the parse fails or there is none. */
  function WatchParam(input: string): string {
    match RawQuery(input)
    case None => ""
    case Some(q) =>
      match ParseQuery(q)
      case None => ""
      case Some(pairs) => Get(pairs, "v")
  }

  /** ExtractVideoID. */
  function ExtractVideoId(input: string): (id: string)
    ensures IsBareId(input) ==> id == input
    ensures !IsBareId(input) && !Contains(input, WatchMarker) && !Contains(input, ShortMarker) ==> id == ""
    ensures var noWatchId, noSingleShort := !Contains(input, WatchMarker) || WatchParam(input) == "",
        !Contains(input, ShortMarker) || CountOf(input, ShortMarker) != 1;
      !IsBareId(input) && noWatchId && noSingleShort ==> id == ""
  {
    SplitInTwo(input, ShortMarker);
    if IsBareId(input) then
      input
    else if Contains(input, WatchMarker) && WatchParam(input) != "" then
      WatchParam(input)
    else if Contains(input, ShortMarker) && |SplitOn(input, ShortMarker)| == 2 then
      SplitOn(SplitOn(input, ShortMarker)[1], "?")[0]
    else
      ""
  }

  /** The characters of a platform video ID. */
  predicate IsIdChar(c: char) {
    'a' <= c <= 'z' || 'A' <= c <= 'Z' || '0' <= c <= '9' || c == '-' || c == '_'
  }

  predicate IdChars(s: string) {
    forall i :: 0 <= i < |s| ==> IsIdChar(s[i])
  }

  /** A plain `key=value` segment parses to that pair. */
  lemma {:induction false} ParsePlainSegment(key: string, value: string)
    requires IdChars(key) && IdChars(value)
    ensures ParseSegment(key + "=" + value) == Some((key, value))
  {
    var q := key + "=" + value;
    assert q == key + ['='] + value;
    assert forall i :: 0 <= i < |q| ==> q[i] == '=' || IsIdChar(q[i]);
    IndexOfAbsentChar(q, ';');
    IndexOfFirstChar(key, '=', value);
    assert q[..|key|] == key && q[|key| + 1..] == value;
    assert QueryUnescape(key) == Some(key);
    assert QueryUnescape(value) == Some(value);
  }

  /** A non-empty query without `&` is a single segment. */
  lemma {:induction false} ParseSingleSegment(q: string)
    requires q != [] && !Contains(q, "&")
    ensures ParseQuery(q) == if ParseSegment(q).Some? then Some([ParseSegment(q).value]) else None
  {
    var (segment, rest, _) := Cut(q, "&");
    assert segment == q && rest == [];
    assert ParseQuery(rest) == Some([]);
    if ParseSegment(q).Some? {
      assert [ParseSegment(q).value] + [] == [ParseSegment(q).value];
    }
  }

  /** A plain `key=value` query parses to that one pair. */
  lemma {:induction false} ParsePlainPair(key: string, value: string)
    requires key != [] && IdChars(key) && IdChars(value)
    ensures ParseQuery(key + "=" + value) == Some([(key, value)])
  {
    var q := key + "=" + value;
    assert forall i :: 0 <= i < |q| ==> q[i] == '=' || IsIdChar(q[i]);
    IndexOfAbsentChar(q, '&');
    ParsePlainSegment(key, value);
    ParseSingleSegment(q);
  }

  /** A segment followed by `&` is parsed ahead of the rest of the query. */
  lemma {:induction false} ParseQueryCut(seg: string, rest: string)
    requires '&' !in seg
    ensures ParseQuery(seg + "&" + rest) == WithSegment(seg, ParseQuery(rest))
  {
    var q := seg + "&" + rest;
    assert q == seg + ['&'] + rest;
    IndexOfFirstChar(seg, '&', rest);
    assert q[..|seg|] == seg && q[|seg| + 1..] == rest;
    var (segment, tail, _) := Cut(q, "&");
    assert segment == seg && tail == rest;
  }

  /** A plain `key=value` segment holds no `&`. */
  lemma {:induction false} PlainSegmentNoAmpersand(key: string, value: string)
    requires IdChars(key) && IdChars(value)
    ensures '&' !in key + "=" + value
  {
    var q := key + "=" + value;
    forall i | 0 <= i < |q|
      ensures q[i] != '&'
    {
      if i < |key| {
        assert q[i] == key[i];
      } else if i > |key| {
        assert q[i] == value[i - |key| - 1];
      }
    }
  }

  /** The segment `v=id` parses to the pair ("v", id) and holds no `&`. */
  lemma {:induction false} ParseVSegment(id: string)
    requires IdChars(id)
    ensures '&' !in "v=" + id
    ensures ParseSegment("v=" + id) == Some(("v", id))
  {
    assert IdChars("v");
    VKeyJoin(id);
    PlainSegmentNoAmpersand("v", id);
    ParsePlainSegment("v", id);
  }

  /** The key `v` and `=` joined in front of a value. */
  lemma {:induction false} VKeyJoin(id: string)
    ensures "v" + "=" + id == "v=" + id
  {
  }

  /** The query `v=id` is the single pair ("v", id). */
  lemma {:induction false} ParseQueryVOnly(id: string)
    requires IdChars(id)
    ensures ParseQuery("v=" + id) == Some([("v", id)])
  {
    ParseVSegment(id);
    ParseSingleSegment("v=" + id);
  }

  /** The query `v=id&tail` is ("v", id) followed by the pairs of `tail`. */
  lemma {:induction false} ParseQueryVThen(id: string, tail: string)
    requires IdChars(id) && ParseQuery(tail).Some?
    ensures ParseQuery("v=" + id + "&" + tail) == Some([("v", id)] + ParseQuery(tail).value)
  {
    ParseVSegment(id);
    ParseQueryCut("v=" + id, tail);
  }

  /** A query starting with `v=id` gives `id` for `v`, whatever parameters follow. */
  lemma {:induction false} ParseQueryLeadingV(id: string, rest: string)
    requires id != [] && IdChars(id)
    requires rest == [] || (rest[0] == '&' && ParseQuery(rest[1..]).Some?)
    ensures ParseQuery("v=" + id + rest).Some?
    ensures Get(ParseQuery("v=" + id + rest).value, "v") == id
  {
    var q := "v=" + id + rest;
    if rest == [] {
      assert q == "v=" + id;
      ParseQueryVOnly(id);
    } else {
      assert q == "v=" + id + "&" + rest[1..];
      ParseQueryVThen(id, rest[1..]);
    }
    assert ParseQuery(q).value[0] == ("v", id);
  }

  /**
   * A URL without fragment or control byte, whose part before the first `?`
   * is well escaped and does not start with `:`, has the rest as raw query.
   */
  lemma {:induction false} RawQueryAfterMark(path: string, query: string)
    requires '?' !in path
    requires PathAccepted(path)
    requires forall i :: 0 <= i < |path| ==> !IsControl(path[i]) && path[i] != '#'
    requires forall i :: 0 <= i < |query| ==> !IsControl(query[i]) && query[i] != '#'
    ensures RawQuery(path + "?" + query) == Some(query)
  {
    var input := path + "?" + query;
    assert input == path + ['?'] + query;
    assert forall i :: 0 <= i < |input| ==> input[i] != '#' && !IsControl(input[i]);
    IndexOfAbsentChar(input, '#');
    var (u, fragment, _) := Cut(input, "#");
    assert u == input && fragment == [];
    IndexOfFirstChar(path, '?', query);
    assert input[..|path|] == path && input[|path| + 1..] == query;
    var (beforeQuery, q, _) := Cut(u, "?");
    assert beforeQuery == path && q == query;
    assert ValidEscapes([]);
  }

  /** A URL whose part before the first `?` url.Parse refuses yields no watch parameter. */
  lemma {:induction false} RejectedPathHasNoWatchParam(path: string, query: string)
    requires '?' !in path && '#' !in path && '#' !in query
    requires !PathAccepted(path)
    ensures RawQuery(path + "?" + query) == None
    ensures WatchParam(path + "?" + query) == ""
  {
    var input := path + "?" + query;
    assert input == path + ['?'] + query;
    assert '#' !in input;
    IndexOfAbsentChar(input, '#');
    var (u, fragment, _) := Cut(input, "#");
    assert u == input;
    IndexOfFirstChar(path, '?', query);
    assert input[..|path|] == path;
    var (beforeQuery, q, _) := Cut(u, "?");
    assert beforeQuery == path;
  }

  /** Appending the watch marker keeps a path free of `?`, `#` and control bytes. */
  lemma {:induction false} WatchPathClean(pre: string)
    requires forall i :: 0 <= i < |pre| ==> !IsControl(pre[i]) && pre[i] != '#' && pre[i] != '?'
    ensures var path := pre + WatchMarker;
      && '?' !in path
      && forall i :: 0 <= i < |path| ==> !IsControl(path[i]) && path[i] != '#'
  {
    var path := pre + WatchMarker;
    assert forall i :: 0 <= i < |path| ==> !IsControl(path[i]) && path[i] != '#' && path[i] != '?';
  }

  /** A query `v=id` followed by clean text holds no fragment and no control byte. */
  lemma {:induction false} VQueryClean(id: string, rest: string)
    requires IdChars(id)
    requires forall i :: 0 <= i < |rest| ==> !IsControl(rest[i]) && rest[i] != '#'
    ensures var query := "v=" + id + rest;
      forall i :: 0 <= i < |query| ==> !IsControl(query[i]) && query[i] != '#'
  {
    var query := "v=" + id + rest;
    forall i | 0 <= i < |query|
      ensures !IsControl(query[i]) && query[i] != '#'
    {
      if i >= 2 + |id| {
        assert query[i] == rest[i - 2 - |id|];
      } else if i >= 2 {
        assert query[i] == id[i - 2];
      }
    }
  }

  /** A watch URL with a clean path has as watch parameter the `v` value of its query, when that parses. */
  lemma {:induction false} WatchParamOfQuery(pre: string, query: string)
    requires forall i :: 0 <= i < |pre| ==> !IsControl(pre[i]) && pre[i] != '#' && pre[i] != '?'
    requires PathAccepted(pre + WatchMarker)
    requires forall i :: 0 <= i < |query| ==> !IsControl(query[i]) && query[i] != '#'
    requires ParseQuery(query).Some?
    ensures WatchParam((pre + WatchMarker) + "?" + query) == Get(ParseQuery(query).value, "v")
  {
    var path := pre + WatchMarker;
    WatchPathClean(pre);
    RawQueryAfterMark(path, query);
  }

  /**
   * A youtube.com watch URL whose query parses and names a non-empty `v`
   * resolves to the first value of `v`.
   */
  lemma {:induction false} WatchUrlYieldsParam(pre: string, query: string)
    requires forall i :: 0 <= i < |pre| ==> !IsControl(pre[i]) && pre[i] != '#' && pre[i] != '?'
    requires PathAccepted(pre + WatchMarker)
    requires forall i :: 0 <= i < |query| ==> !IsControl(query[i]) && query[i] != '#'
    requires ParseQuery(query).Some? && Get(ParseQuery(query).value, "v") != ""
    ensures ExtractVideoId((pre + WatchMarker) + "?" + query) == Get(ParseQuery(query).value, "v")
  {
    WatchUrlShape(pre, query);
    WatchParamOfQuery(pre, query);
  }

  /** A watch URL is not a bare ID (it holds a dot) and holds the watch marker. */
  lemma {:induction false} WatchUrlShape(pre: string, query: string)
    ensures var input := (pre + WatchMarker) + "?" + query;
      !IsBareId(input) && Contains(input, WatchMarker)
  {
    var input := (pre + WatchMarker) + "?" + query;
    assert input[|pre| + 7] == '.';
    OccursChar(input, '.', |pre| + 7);
    ContainsAt(input, ".", |pre| + 7);
    assert input[|pre|..|pre| + |WatchMarker|] == WatchMarker;
    ContainsAt(input, WatchMarker, |pre|);
  }

  /**
   * A youtube.com watch URL whose query starts with `v=id` resolves to `id`,
   * whatever parameters follow.
   */
  lemma {:induction false} WatchUrlYieldsV(pre: string, id: string, rest: string)
    requires forall i :: 0 <= i < |pre| ==> !IsControl(pre[i]) && pre[i] != '#' && pre[i] != '?'
    requires PathAccepted(pre + WatchMarker)
    requires id != [] && IdChars(id)
    requires forall i :: 0 <= i < |rest| ==> !IsControl(rest[i]) && rest[i] != '#'
    requires rest == [] || (rest[0] == '&' && ParseQuery(rest[1..]).Some?)
    ensures ExtractVideoId(pre + "youtube.com/watch?v=" + id + rest) == id
  {
    var query := "v=" + id + rest;
    WatchUrlJoin(pre, id, rest);
    VQueryClean(id, rest);
    ParseQueryLeadingV(id, rest);
    WatchUrlYieldsParam(pre, query);
  }

  /** A watch URL with `v` first, written as path, `?` and query. */
  lemma {:induction false} WatchUrlJoin(pre: string, id: string, rest: string)
    ensures pre + "youtube.com/watch?v=" + id + rest == (pre + WatchMarker) + "?" + ("v=" + id + rest)
  {
  }

  /** Both sides parsed, their pairs concatenated; None when either side is rejected. */
  function Concat(x: Option<seq<(string, string)>>, y: Option<seq<(string, string)>>): Option<seq<(string, string)>> {
    if x.Some? && y.Some? then Some(x.value + y.value) else None
  }

  /** Putting a segment in front commutes with concatenating what follows. */
  lemma {:induction false} WithSegmentConcat(seg: string, x: Option<seq<(string, string)>>, y: Option<seq<(string, string)>>)
    ensures WithSegment(seg, Concat(x, y)) == Concat(WithSegment(seg, x), y)
  {
    if seg != [] && ParseSegment(seg).Some? && x.Some? && y.Some? {
      var pair := ParseSegment(seg).value;
      assert [pair] + (x.value + y.value) == ([pair] + x.value) + y.value;
    }
  }

  /** A query without `&` is one segment, or nothing when empty. */
  lemma {:induction false} ParseQueryOneSegment(a: string)
    requires '&' !in a
    ensures ParseQuery(a) == WithSegment(a, Some([]))
  {
    if a != [] {
      IndexOfAbsentChar(a, '&');
      ParseSingleSegment(a);
      if ParseSegment(a).Some? {
        assert [ParseSegment(a).value] + [] == [ParseSegment(a).value];
      }
    }
  }

  /** Parsing a query cut at an `&` parses the two sides and concatenates their pairs. */
  lemma {:induction false} ParseQueryAppend(a: string, b: string)
    ensures ParseQuery(a + "&" + b) == Concat(ParseQuery(a), ParseQuery(b))
    decreases |a|
  {
    match IndexOf(a, "&")
    case None =>
      IndexOfNoChar(a, '&');
      ParseQueryAppendSegment(a, b);
    case Some(i) =>
      var head, tail := a[..i], a[i + 1..];
      CutAtAmpersand(a, b, i);
      ParseQueryCut(head, tail + "&" + b);
      ParseQueryCut(head, tail);
      ParseQueryAppend(tail, b);
      WithSegmentConcat(head, ParseQuery(tail), ParseQuery(b));
  }

  /** ParseQueryAppend when the left side is a single segment. */
  lemma {:induction false} ParseQueryAppendSegment(a: string, b: string)
    requires '&' !in a
    ensures ParseQuery(a + "&" + b) == Concat(ParseQuery(a), ParseQuery(b))
  {
    ParseQueryCut(a, b);
    ParseQueryOneSegment(a);
    WithSegmentConcat(a, Some([]), ParseQuery(b));
    if ParseQuery(b).Some? {
      assert [] + ParseQuery(b).value == ParseQuery(b).value;
    }
  }

  /** A query cut at its first `&`, with more text appended after an `&`. */
  lemma {:induction false} CutAtAmpersand(a: string, b: string, i: nat)
    requires IndexOf(a, "&") == Some(i)
    ensures i < |a| && '&' !in a[..i]
    ensures a == a[..i] + "&" + a[i + 1..]
    ensures a + "&" + b == a[..i] + "&" + (a[i + 1..] + "&" + b)
  {
    IndexOfFirst(a, '&', i);
    assert a == a[..i] + "&" + a[i + 1..];
  }

  /** Pairs without the key do not change what Get finds after them. */
  lemma {:induction false} GetSkips(p: seq<(string, string)>, q: seq<(string, string)>, key: string)
    requires forall k :: 0 <= k < |p| ==> p[k].0 != key
    ensures Get(p + q, key) == Get(q, key)
    decreases |p|
  {
    if p != [] {
      assert (p + q)[1..] == p[1..] + q;
      GetSkips(p[1..], q, key);
    } else {
      assert p + q == q;
    }
  }

  /**
   * A youtube.com watch URL whose query holds parameters other than `v` and
   * then `v=id` resolves to `id`: earlier parameters do not matter either.
   */
  lemma {:induction false} WatchUrlYieldsLaterV(pre: string, before: string, id: string, rest: string)
    requires forall i :: 0 <= i < |pre| ==> !IsControl(pre[i]) && pre[i] != '#' && pre[i] != '?'
    requires PathAccepted(pre + WatchMarker)
    requires forall i :: 0 <= i < |before| ==> !IsControl(before[i]) && before[i] != '#'
    requires ParseQuery(before).Some?
    requires forall k :: 0 <= k < |ParseQuery(before).value| ==> ParseQuery(before).value[k].0 != "v"
    requires id != [] && IdChars(id)
    requires forall i :: 0 <= i < |rest| ==> !IsControl(rest[i]) && rest[i] != '#'
    requires rest == [] || (rest[0] == '&' && ParseQuery(rest[1..]).Some?)
    ensures ExtractVideoId((pre + WatchMarker) + "?" + (before + "&" + ("v=" + id + rest))) == id
  {
    var vq := "v=" + id + rest;
    var query := before + "&" + vq;
    VQueryClean(id, rest);
    assert forall i :: 0 <= i < |query| ==> !IsControl(query[i]) && query[i] != '#' by {
      forall i | 0 <= i < |query|
        ensures !IsControl(query[i]) && query[i] != '#'
      {
        if i > |before| {
          assert query[i] == vq[i - |before| - 1];
        }
      }
    }
    ParseQueryLeadingV(id, rest);
    ParseQueryAppend(before, vq);
    GetSkips(ParseQuery(before).value, ParseQuery(vq).value, "v");
    WatchUrlYieldsParam(pre, query);
  }

  /**
   * A youtu.be URL with exactly one marker, where the watch branch yields
   * nothing, resolves to the text after the marker up to the first `?`.
   */
  lemma {:induction false} ShortUrlYieldsSegment(input: string)
    requires !IsBareId(input)
    requires !Contains(input, WatchMarker) || WatchParam(input) == ""
    requires CountOf(input, ShortMarker) == 1
    ensures IndexOf(input, ShortMarker).Some?
    ensures var after := input[IndexOf(input, ShortMarker).value + |ShortMarker|..];
            var id := ExtractVideoId(input);
            HasPrefix(after, id) && '?' !in id && (id == after || after[|id|] == '?')
  {
    ShortUrlTakesFirstPart(input);
    FirstPartBeforeMark(input[IndexOf(input, ShortMarker).value + |ShortMarker|..]);
  }

  /** The short-URL branch yields the first `?`-separated part of the text after the marker. */
  lemma {:induction false} ShortUrlTakesFirstPart(input: string)
    requires !IsBareId(input)
    requires !Contains(input, WatchMarker) || WatchParam(input) == ""
    requires CountOf(input, ShortMarker) == 1
    ensures IndexOf(input, ShortMarker).Some?
    ensures ExtractVideoId(input) == SplitOn(input[IndexOf(input, ShortMarker).value + |ShortMarker|..], "?")[0]
  {
    var i := IndexOf(input, ShortMarker).value;
    var after := input[i + |ShortMarker|..];
    SplitInTwo(input, ShortMarker);
    SplitFirst(input, ShortMarker);
    assert SplitOn(input, ShortMarker)[1] == SplitOn(after, ShortMarker)[0];
    SplitFirst(after, ShortMarker);
  }

  /** The first `?`-separated part of a text is its longest prefix without `?`. */
  lemma {:induction false} FirstPartBeforeMark(after: string)
    ensures var id := SplitOn(after, "?")[0];
            HasPrefix(after, id) && '?' !in id && (id == after || after[|id|] == '?')
  {
    SplitFirst(after, "?");
    var id := SplitOn(after, "?")[0];
    match IndexOf(after, "?")
    case None =>
      assert id == after;
      forall j | 0 <= j < |after|
        ensures after[j] != '?'
      {
        OccursChar(after, '?', j);
      }
    case Some(q) =>
      assert id == after[..q];
      OccursChar(after, '?', q);
      forall j | 0 <= j < q
        ensures after[j] != '?'
      {
        OccursChar(after, '?', j);
      }
  }

  /** The bare-ID input of the repository's ExtractVideoID test. */
  lemma {:induction false} BareIdExample(input: string)
    requires input == "VO6XEQIsCoM"
    ensures ExtractVideoId(input) == input
  {
    assert IdChars(input);
    BareIdIsBare(input);
  }

  /** Eleven ID characters form a bare ID. */
  lemma {:induction false} BareIdIsBare(input: string)
    requires |input| == IdLength && IdChars(input)
    ensures IsBareId(input)
  {
    assert '/' !in input && '.' !in input;
    IndexOfAbsentChar(input, '/');
    IndexOfAbsentChar(input, '.');
  }

  /** The scheme and host prefix of the watch URLs in the repository's test. */
  lemma {:induction false} WatchPrefixClean()
    ensures var pre := "https://www.";
      && (forall i :: 0 <= i < |pre| ==> !IsControl(pre[i]) && pre[i] != '#' && pre[i] != '?')
      && PathAccepted(pre + WatchMarker)
  {
    var scheme, rest := "https", "//www." + WatchMarker;
    assert "https://www." + WatchMarker == scheme + ":" + rest;
    assert forall j :: 0 <= j < |scheme| ==> IsSchemeChar(scheme[j]);
    SchemeFound(scheme, rest);
    assert '%' !in rest;
  }

  /** The watch-URL input of the repository's ExtractVideoID test. */
  lemma {:induction false} WatchExample(url: string)
    requires url == "https://www.youtube.com/watch?v=VO6XEQIsCoM"
    ensures ExtractVideoId(url) == "VO6XEQIsCoM"
  {
    var pre, id := "https://www.", "VO6XEQIsCoM";
    ExampleIdPlain();
    WatchPrefixClean();
    WatchUrlParts(url);
    WatchUrlYieldsV(pre, id, "");
  }

  /** The watch-URL test input is the scheme and host, the watch path with `v=` and the ID. */
  lemma {:induction false} WatchUrlParts(url: string)
    requires url == "https://www.youtube.com/watch?v=VO6XEQIsCoM"
    ensures url == "https://www." + "youtube.com/watch?v=" + "VO6XEQIsCoM" + ""
  {
  }

  /** The query `t=123` parses. */
  lemma {:induction false} TimeQueryParses(query: string)
    requires query == "t=123"
    ensures ParseQuery(query).Some?
  {
    var key, value := "t", "123";
    assert IdChars(key) && IdChars(value);
    assert query == key + "=" + value;
    ParsePlainPair(key, value);
  }

  /** The text `&t=123` that follows the ID in the repository's last test input. */
  lemma {:induction false} TimeParamClean(rest: string)
    requires rest == "&t=123"
    ensures rest[0] == '&' && ParseQuery(rest[1..]).Some?
    ensures forall i :: 0 <= i < |rest| ==> !IsControl(rest[i]) && rest[i] != '#'
  {
    TimeParamTail(rest);
    TimeQueryParses(rest[1..]);
    TimeParamChars(rest);
  }

  /** After its `&`, the text `&t=123` is the query `t=123`. */
  lemma {:induction false} TimeParamTail(rest: string)
    requires rest == "&t=123"
    ensures rest[0] == '&' && rest[1..] == "t=123"
  {
  }

  /** The text `&t=123` holds no fragment mark and no control byte. */
  lemma {:induction false} TimeParamChars(rest: string)
    requires rest == "&t=123"
    ensures forall i :: 0 <= i < |rest| ==> !IsControl(rest[i]) && rest[i] != '#'
  {
  }

  /** The last test input is the watch URL of the first one followed by `&t=123`. */
  lemma {:induction false} TimeUrlParts(url: string)
    requires url == "https://www.youtube.com/watch?v=VO6XEQIsCoM&t=123"
    ensures url == "https://www." + "youtube.com/watch?v=" + "VO6XEQIsCoM" + "&t=123"
  {
  }

  /** The watch-URL input with a trailing `&t=123` parameter. */
  lemma {:induction false} WatchWithTimeExample(url: string)
    requires url == "https://www.youtube.com/watch?v=VO6XEQIsCoM&t=123"
    ensures ExtractVideoId(url) == "VO6XEQIsCoM"
  {
    var pre, id, rest := "https://www.", "VO6XEQIsCoM", "&t=123";
    TimeUrlParts(url);
    ExampleIdPlain();
    WatchPrefixClean();
    TimeParamClean(rest);
    WatchUrlYieldsV(pre, id, rest);
  }

  /** The short-URL input has the short marker right after the scheme. */
  lemma {:induction false} ShortUrlMarker(url: string)
    requires url == "https://youtu.be/VO6XEQIsCoM"
    ensures IndexOf(url, ShortMarker) == Some(8)
    ensures url[8 + |ShortMarker|..] == "VO6XEQIsCoM"
  {
    var after := "VO6XEQIsCoM";
    ShortUrlParts(url);
    IndexOfAfter("https://", ShortMarker + after, ShortMarker);
  }

  /** The short-URL input is the scheme, the short marker and the ID. */
  lemma {:induction false} ShortUrlParts(url: string)
    requires url == "https://youtu.be/VO6XEQIsCoM"
    ensures url == "https://" + (ShortMarker + "VO6XEQIsCoM")
  {
    assert ShortMarker + "VO6XEQIsCoM" == "youtu.be/VO6XEQIsCoM";
  }

  /** The short-URL input has the short marker exactly once. */
  lemma {:induction false} ShortUrlCount(url: string)
    requires url == "https://youtu.be/VO6XEQIsCoM"
    ensures CountOf(url, ShortMarker) == 1
  {
    ShortUrlMarker(url);
    var after := url[8 + |ShortMarker|..];
    assert ShortMarker[8] == '/';
    IndexOfMissingChar(after, ShortMarker, 8);
    assert CountOf(after, ShortMarker) == 0;
  }

  /** The short-URL input parses with an empty raw query. */
  lemma {:induction false} ShortUrlRawQuery(url: string)
    requires url == "https://youtu.be/VO6XEQIsCoM"
    ensures RawQuery(url) == Some([])
  {
    assert forall i :: 0 <= i < |url| ==> !IsControl(url[i]) && url[i] != '#' && url[i] != '?';
    ShortUrlAccepted(url);
    RawQueryWithoutQuery(url);
  }

  /** url.Parse accepts the short-URL input: scheme `https`, then a path without escapes. */
  lemma {:induction false} ShortUrlAccepted(url: string)
    requires url == "https://youtu.be/VO6XEQIsCoM"
    ensures PathAccepted(url)
  {
    var scheme, rest := "https", "//youtu.be/VO6XEQIsCoM";
    assert url == scheme + ":" + rest;
    assert forall j :: 0 <= j < |scheme| ==> IsSchemeChar(scheme[j]);
    SchemeFound(scheme, rest);
    ShortUrlRestUnescaped(rest);
  }

  /** The path of the short-URL input holds no escape. */
  lemma {:induction false} ShortUrlRestUnescaped(rest: string)
    requires rest == "//youtu.be/VO6XEQIsCoM"
    ensures ValidEscapes(rest)
  {
    assert '%' !in rest;
  }

  /** A URL that url.Parse accepts and that has no `?` or fragment parses with an empty raw query. */
  lemma {:induction false} RawQueryWithoutQuery(url: string)
    requires forall i :: 0 <= i < |url| ==> !IsControl(url[i]) && url[i] != '#' && url[i] != '?'
    requires PathAccepted(url)
    ensures RawQuery(url) == Some([])
  {
    IndexOfAbsentChar(url, '#');
    IndexOfAbsentChar(url, '?');
    var (u, fragment, _) := Cut(url, "#");
    assert u == url && fragment == [];
    var (beforeQuery, query, _) := Cut(u, "?");
    assert beforeQuery == url && query == [];
  }

  /** The short-URL input has no query, so the watch branch yields nothing. */
  lemma {:induction false} ShortUrlNoWatchParam(url: string)
    requires url == "https://youtu.be/VO6XEQIsCoM"
    ensures WatchParam(url) == ""
  {
    ShortUrlRawQuery(url);
    assert ParseQuery([]) == Some([]);
  }

  /**
   * A youtu.be URL as in ShortUrlYieldsSegment, with no `?` after the marker,
   * resolves to all the text after the marker.
   */
  lemma {:induction false} ShortUrlWithoutQuery(input: string, after: string)
    requires !IsBareId(input)
    requires !Contains(input, WatchMarker) || WatchParam(input) == ""
    requires CountOf(input, ShortMarker) == 1
    requires IndexOf(input, ShortMarker).Some?
    requires after == input[IndexOf(input, ShortMarker).value + |ShortMarker|..]
    requires '?' !in after
    ensures ExtractVideoId(input) == after
  {
    ShortUrlYieldsSegment(input);
  }

  /** The short-URL input of the repository's ExtractVideoID test. */
  lemma {:induction false} ShortExample(url: string)
    requires url == "https://youtu.be/VO6XEQIsCoM"
    ensures ExtractVideoId(url) == "VO6XEQIsCoM"
  {
    ShortUrlFacts(url);
    ShortUrlNotBare(url);
    ExampleIdPlain();
    ShortUrlWithoutQuery(url, "VO6XEQIsCoM");
  }

  /** The ID of the repository's test inputs is made of ID characters and holds no `?`. */
  lemma {:induction false} ExampleIdPlain()
    ensures IdChars("VO6XEQIsCoM") && '?' !in "VO6XEQIsCoM"
  {
  }

  /** Longer than an ID, the short-URL input is not a bare ID. */
  lemma {:induction false} ShortUrlNotBare(url: string)
    requires url == "https://youtu.be/VO6XEQIsCoM"
    ensures !IsBareId(url)
  {
    assert |url| != IdLength;
  }

  /** The short-URL input meets the hypotheses of ShortUrlWithoutQuery. */
  lemma {:induction false} ShortUrlFacts(url: string)
    requires url == "https://youtu.be/VO6XEQIsCoM"
    ensures WatchParam(url) == "" && CountOf(url, ShortMarker) == 1
    ensures IndexOf(url, ShortMarker) == Some(8) && url[8 + |ShortMarker|..] == "VO6XEQIsCoM"
  {
    ShortUrlMarker(url);
    ShortUrlCount(url);
    ShortUrlNoWatchParam(url);
  }
}
