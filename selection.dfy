/**
 * Track selection: the two first-match loops of GetTranscript (English
 * preferred, else the first track) and GetTranscriptWithLanguage (the first
 * track whose language code starts with the requested code).
 */
module Selection {
  import opened Wrappers
  import opened Strings
  import opened Types

  /** Track `i` is the first whose language code starts with `prefix`. */
  predicate IsFirstWithPrefix(ts: seq<Transcript>, prefix: string, i: int) {
    0 <= i < |ts|
    && HasPrefix(ts[i].languageCode, prefix)
    && forall j :: 0 <= j < i ==> !HasPrefix(ts[j].languageCode, prefix)
  }

  /** The position of the first track whose language code starts with `prefix`. */
  function FirstWithPrefix(ts: seq<Transcript>, prefix: string): (r: Option<nat>)
    ensures r.Some? ==> IsFirstWithPrefix(ts, prefix, r.value)
    ensures r.None? ==> forall j :: 0 <= j < |ts| ==> !HasPrefix(ts[j].languageCode, prefix)
    decreases |ts|
  {
    if ts == [] then None
    else if HasPrefix(ts[0].languageCode, prefix) then Some(0)
    else
      match FirstWithPrefix(ts[1..], prefix)
      case None => None
      case Some(i) => Some(i + 1)
  }

  /**
   * The default policy as written: the first English track, unless there is
   * none or its base URL is empty, in which case the first track.
   */
  function DefaultChoice(ts: seq<Transcript>): (t: Transcript)
    requires ts != []
    ensures t in ts
    ensures forall i :: IsFirstWithPrefix(ts, "en", i) ==> t == if ts[i].baseUrl != "" then ts[i] else ts[0]
    ensures (forall j :: 0 <= j < |ts| ==> !HasPrefix(ts[j].languageCode, "en")) ==> t == ts[0]
  {
    match FirstWithPrefix(ts, "en")
    case Some(i) => if ts[i].baseUrl != "" then ts[i] else ts[0]
    case None => ts[0]
  }

  /** The explicit policy: the first track whose code starts with `code`, if any. */
  function LanguageChoice(ts: seq<Transcript>, code: string): (r: Option<Transcript>)
    ensures r.Some? <==> exists i :: 0 <= i < |ts| && HasPrefix(ts[i].languageCode, code)
    ensures forall i :: IsFirstWithPrefix(ts, code, i) ==> r == Some(ts[i])
  {
    match FirstWithPrefix(ts, code)
    case Some(i) => Some(ts[i])
    case None => None
  }

  /** The selection loop of GetTranscript. */
  method SelectDefault(ts: seq<Transcript>) returns (selected: Transcript)
    requires ts != []
    ensures selected == DefaultChoice(ts)
  {
    selected := NoTranscript;
    var i := 0;
    while i < |ts|
      invariant 0 <= i <= |ts|
      invariant selected == NoTranscript
      invariant forall j :: 0 <= j < i ==> !HasPrefix(ts[j].languageCode, "en")
    {
      if HasPrefix(ts[i].languageCode, "en") {
        selected := ts[i];
        break;
      }
      i := i + 1;
    }
    if selected.baseUrl == "" {
      selected := ts[0];
    }
  }

  /** The selection loop of GetTranscriptWithLanguage. */
  method SelectLanguage(ts: seq<Transcript>, code: string) returns (r: Option<Transcript>)
    ensures r == LanguageChoice(ts, code)
  {
    for i := 0 to |ts|
      invariant forall j :: 0 <= j < i ==> !HasPrefix(ts[j].languageCode, code)
    {
      if HasPrefix(ts[i].languageCode, code) {
        return Some(ts[i]);
      }
    }
    return None;
  }

  /** The default policy agrees with asking for "en" explicitly, except that an English track without a base URL is passed over for the first track. */
  lemma {:induction false} DefaultVersusEnglish(ts: seq<Transcript>)
    requires ts != []
    ensures LanguageChoice(ts, "en").None? ==> DefaultChoice(ts) == ts[0]
    ensures LanguageChoice(ts, "en").Some? && LanguageChoice(ts, "en").value.baseUrl != "" ==>
      DefaultChoice(ts) == LanguageChoice(ts, "en").value
    ensures LanguageChoice(ts, "en").Some? && LanguageChoice(ts, "en").value.baseUrl == "" ==>
      DefaultChoice(ts) == ts[0]
  {
    match FirstWithPrefix(ts, "en")
    case None =>
    case Some(i) =>
  }

  /** Every code starts with the empty code, so asking for "" selects the first track. */
  lemma {:induction false} EmptyCodeSelectsFirst(ts: seq<Transcript>)
    requires ts != []
    ensures LanguageChoice(ts, "") == Some(ts[0])
  {
    assert IsFirstWithPrefix(ts, "", 0);
  }

  /**
   * The fallback quirk: a later English track with a URL is not chosen when
   * the first English track has an empty URL.
   */
  lemma {:induction false} EmptyUrlEnglishFallsBack(fr: Transcript, en: Transcript, enGb: Transcript)
    requires fr == Transcript("https://example.test/fr", "fr", "French", false)
    requires en == Transcript("", "en", "English", false)
    requires enGb == Transcript("https://example.test/en-GB", "en-GB", "English (UK)", false)
    ensures DefaultChoice([fr, en, enGb]) == fr
  {
    var ts := [fr, en, enGb];
    assert ts[0].languageCode[..2][0] == 'f';
    assert HasPrefix(ts[1].languageCode, "en");
    assert IsFirstWithPrefix(ts, "en", 1);
  }

  /** With tracks en-US and fr: the default picks en-US, "fr" picks fr, and "de" finds nothing. */
  lemma {:induction false} SelectionExample(enUs: Transcript, fr: Transcript)
    requires enUs == Transcript("https://example.test/en", "en-US", "English", false)
    requires fr == Transcript("https://example.test/fr", "fr", "French", false)
    ensures DefaultChoice([enUs, fr]) == enUs
    ensures LanguageChoice([enUs, fr], "fr") == Some(fr)
    ensures LanguageChoice([enUs, fr], "de") == None
  {
    var ts := [enUs, fr];
    assert HasPrefix(ts[0].languageCode, "en");
    assert IsFirstWithPrefix(ts, "en", 0);
    assert ts[0].languageCode[..2][0] == 'e';
    assert HasPrefix(ts[1].languageCode, "fr");
    assert IsFirstWithPrefix(ts, "fr", 1);
    assert ts[1].languageCode[..2][0] == 'f';
  }
}
