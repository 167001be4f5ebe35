/**
 * The small string utilities of helpers.py: `get_substring`,
 * `normalize_url_space` and the three prefix classifiers.
 */
module StringHelpers {
  import opened Text

  /**
   * `get_substring(start_char, end_char, data)`: the text between the first
   * `start_char` and the first `end_char`. Both markers are searched from the
   * start of `data`, so an end marker that comes first gives the empty string.
   */
  function GetSubstring(startChar: string, endChar: string, data: string): (r: string)
    ensures data == [] || !Contains(data, startChar) || !Contains(data, endChar) ==> r == []
    ensures forall i, j ::
              data != [] && FirstAt(data, startChar, i) && FirstAt(data, endChar, j) ==>
                r == if i + |startChar| <= j then data[i + |startChar|..j] else []
  {
    if data == [] then ""
    else
      var startPos := Find(data, startChar);
      if startPos < 0 then ""
      else
        var endPos := Find(data, endChar);
        if endPos < 0 then ""
        else Slice(data, startPos + |startChar|, endPos)
  }

  /**
   * `normalize_url_space(url)`: surrounding whitespace removed and every
   * remaining space turned into '+'.
   */
  function NormalizeUrlSpace(url: string): (r: string)
    ensures exists lo :: NormalizedAt(url, r, lo)
    ensures ' ' !in r
    ensures r == [] || (!IsSpace(r[0]) && !IsSpace(r[|r| - 1]))
    ensures |r| <= |url|
  {
    var t := StripSpace(url);
    NormalizedExists(url, t);
    ReplaceChar(t, ' ', '+')
  }

  lemma NormalizedExists(url: string, t: string)
    requires t == StripSpace(url)
    ensures exists lo :: NormalizedAt(url, ReplaceChar(t, ' ', '+'), lo)
    ensures var r := ReplaceChar(t, ' ', '+'); r == [] || (!IsSpace(r[0]) && !IsSpace(r[|r| - 1]))
    ensures ' ' !in ReplaceChar(t, ' ', '+')
  {
    var lo :| TrimmedAt(url, t, lo, IsSpace);
    NormalizedFromTrimmed(url, t, lo);
    ReplaceKeepsEnds(t);
    ReplaceCharRemoves(t, ' ', '+');
  }

  lemma ReplaceCharRemoves(s: string, a: char, b: char)
    requires a != b
    ensures a !in ReplaceChar(s, a, b)
  {
    var r := ReplaceChar(s, a, b);
    forall i | 0 <= i < |r| ensures r[i] != a {
    }
  }

  lemma NormalizedFromTrimmed(url: string, t: string, lo: int)
    requires TrimmedAt(url, t, lo, IsSpace)
    requires t == [] || (!IsSpace(t[0]) && !IsSpace(t[|t| - 1]))
    ensures NormalizedAt(url, ReplaceChar(t, ' ', '+'), lo)
  {
  }

  lemma ReplaceKeepsEnds(t: string)
    requires t == [] || (!IsSpace(t[0]) && !IsSpace(t[|t| - 1]))
    ensures var r := ReplaceChar(t, ' ', '+'); r == [] || (!IsSpace(r[0]) && !IsSpace(r[|r| - 1]))
  {
  }

  lemma StripSpaceKeeps(s: string)
    requires s == [] || (!IsSpace(s[0]) && !IsSpace(s[|s| - 1]))
    ensures StripSpace(s) == s
  {
    StripKeeps(s, IsSpace);
  }

  lemma ReplaceCharAbsent(s: string, a: char, b: char)
    requires a !in s
    ensures ReplaceChar(s, a, b) == s
  {
  }

  /**
   * r is the text of url from lo on with each space turned into '+', and
   * only whitespace of url lies before and after that text.
   */
  predicate NormalizedAt(url: string, r: string, lo: int) {
    && 0 <= lo && lo + |r| <= |url|
    && (forall i :: 0 <= i < lo ==> IsSpace(url[i]))
    && (forall i :: lo + |r| <= i < |url| ==> IsSpace(url[i]))
    && (r != [] ==> !IsSpace(url[lo]) && !IsSpace(url[lo + |r| - 1]))
    && forall i :: 0 <= i < |r| ==> r[i] == if url[lo + i] == ' ' then '+' else url[lo + i]
  }

  /** NormalizedAt determines the result: at most one r fits a given url. */
  lemma NormalizedAtUnique(url: string, r1: string, lo1: int, r2: string, lo2: int)
    requires NormalizedAt(url, r1, lo1) && NormalizedAt(url, r2, lo2)
    ensures r1 == r2
  {
    if r1 == [] {
      NormalizedEmpty(url, lo1);
    } else if r2 == [] {
      NormalizedEmpty(url, lo2);
    } else {
      NormalizedBounds(url, r1, lo1, lo2);
      NormalizedBounds(url, r1, lo1, lo2 + |r2| - 1);
      NormalizedBounds(url, r2, lo2, lo1);
      NormalizedBounds(url, r2, lo2, lo1 + |r1| - 1);
    }
  }

  /** NormalizedAt characterizes NormalizeUrlSpace: any r it admits is the result. */
  lemma NormalizeUrlSpaceCharacterized(url: string, r: string, lo: int)
    requires NormalizedAt(url, r, lo)
    ensures r == NormalizeUrlSpace(url)
  {
    var n := NormalizeUrlSpace(url);
    var lo' :| NormalizedAt(url, n, lo');
    NormalizedAtUnique(url, r, lo, n, lo');
  }

  /** An empty result means url is all whitespace. */
  lemma NormalizedEmpty(url: string, lo: int)
    requires NormalizedAt(url, [], lo)
    ensures forall i :: 0 <= i < |url| ==> IsSpace(url[i])
  {
  }

  /** Every non-whitespace character of url lies inside the kept text. */
  lemma NormalizedBounds(url: string, r: string, lo: int, j: int)
    requires NormalizedAt(url, r, lo) && 0 <= j < |url| && !IsSpace(url[j])
    ensures lo <= j < lo + |r|
  {
  }

  /** Normalizing an already normalized URL changes nothing. */
  lemma NormalizeUrlSpaceIdempotent(url: string)
    ensures NormalizeUrlSpace(NormalizeUrlSpace(url)) == NormalizeUrlSpace(url)
  {
    var r := NormalizeUrlSpace(url);
    StripSpaceKeeps(r);
    ReplaceCharAbsent(r, ' ', '+');
  }

  /** A URL without any whitespace comes back unchanged. */
  lemma NormalizeUrlSpaceKeepsCleanUrl(url: string)
    requires forall i :: 0 <= i < |url| ==> !IsSpace(url[i])
    ensures NormalizeUrlSpace(url) == url
  {
    assert url != [] ==> !IsSpace(url[0]) && !IsSpace(url[|url| - 1]);
    StripSpaceKeeps(url);
    assert ' ' !in url by {
      assert IsSpace(' ');
    }
    ReplaceCharAbsent(url, ' ', '+');
  }

  /** `is_valid_url`: an exact, case-sensitive http:// or https:// prefix. */
  function IsValidUrl(value: string): (r: bool)
    ensures r <==> StartsWith(value, "http://") || StartsWith(value, "https://")
    ensures value == [] ==> !r
  {
    if value == [] then false
    else Take(value, 7) == "http://" || Take(value, 8) == "https://"
  }

  /** `is_sip_url`: an exact, case-sensitive sip: prefix. */
  function IsSipUrl(value: string): (r: bool)
    ensures r <==> StartsWith(value, "sip:")
    ensures value == [] ==> !r
  {
    if value == [] then false else Take(value, 4) == "sip:"
  }

  /** `VALID_SOUND_PROTOCOLS`, in the order the regular expression lists them. */
  const ValidSoundProtocols: seq<string> := ["tone_stream://", "shout://", "vlc://"]

  /**
   * Whether `re.match("^(a1|a2|...)", value)` succeeds for alternatives that
   * hold no regular-expression metacharacters: the alternatives are tried in
   * order at position 0.
   */
  function MatchesAlternative(value: string, alternatives: seq<string>): (r: bool)
    ensures r <==> exists i :: 0 <= i < |alternatives| && StartsWith(value, alternatives[i])
  {
    if alternatives == [] then false
    else if StartsWith(value, alternatives[0]) then true
    else
      var rest := MatchesAlternative(value, alternatives[1..]);
      assert forall i :: 1 <= i < |alternatives| ==> alternatives[i] == alternatives[1..][i - 1];
      rest
  }

  /** `is_valid_sound_proto`: one of the three stream prefixes, case-sensitive. */
  function IsValidSoundProto(value: string): (r: bool)
    ensures r <==> || StartsWith(value, "tone_stream://")
                   || StartsWith(value, "shout://")
                   || StartsWith(value, "vlc://")
    ensures value == [] ==> !r
  {
    var protocols := ValidSoundProtocols;
    assert protocols[0] == "tone_stream://" && protocols[1] == "shout://" && protocols[2] == "vlc://";
    if value == [] then false else MatchesAlternative(value, protocols)
  }
}
