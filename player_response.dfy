/** The embedded player response of a watch page, as both `server.js` and
    `old/fetch.js` locate it with the regular expression
    `/ytInitialPlayerResponse\s*=\s*(\{.*?\});/s`, and the parts of the parsed
    document the pipeline reads.

    The regular expression is modelled as a deterministic scan (`ScanPayload`)
    and, independently, as a declarative description of what a match of that
    expression is (`IsRegexMatch`); `ScanPayloadIsLeftmostRegexMatch` proves that
    the scan returns exactly the capture group of the leftmost match. */
module PlayerResponse {
  import opened Results

  /** The characters JavaScript's `\s` class matches: the ECMAScript WhiteSpace
      and LineTerminator code points. */
  predicate IsJsWhitespace(c: char) {
    c == '\t' || c == '\n' || c == '\U{000B}' || c == '\U{000C}' || c == '\r' || c == ' '
    || c == '\U{00A0}' || c == '\U{1680}' || ('\U{2000}' <= c <= '\U{200A}')
    || c == '\U{2028}' || c == '\U{2029}' || c == '\U{202F}' || c == '\U{205F}'
    || c == '\U{3000}' || c == '\U{FEFF}'
  }

  /** The literal variable name the expression starts with. */
  const Marker: string := "ytInitialPlayerResponse"

  predicate MarkerAt(s: string, p: int) {
    0 <= p && p + |Marker| <= |s| && s[p..p + |Marker|] == Marker
  }

  predicate AllWhitespace(s: string, i: int, j: int)
    requires 0 <= i <= j <= |s|
  {
    forall k :: i <= k < j ==> IsJsWhitespace(s[k])
  }

  /** `};` starts at position `k`: the place where `\}` and `;` can both match. */
  predicate TerminatorAt(s: string, k: int) {
    0 <= k && k + 1 < |s| && s[k] == '}' && s[k + 1] == ';'
  }

  /** A capture `s[start..end]`. */
  datatype Span = Span(start: nat, end: nat)

  /** What it means for the expression to match at `p` with the group capturing
      `s[b..e]`: the marker at `p`, whitespace, `=`, whitespace, `{` at `b`, then
      the fewest characters (`.*?`, which with the `s` flag also crosses line
      breaks) up to a `}` at `e - 1` that is followed by `;`. */
  ghost predicate IsRegexMatch(s: string, p: int, b: int, e: int) {
    && MarkerAt(s, p)
    && 0 <= b && b + 1 < e && e < |s|
    && (exists q :: p + |Marker| <= q < b && s[q] == '='
                    && AllWhitespace(s, p + |Marker|, q) && AllWhitespace(s, q + 1, b))
    && s[b] == '{'
    && TerminatorAt(s, e - 1)
    && (forall k :: b + 1 <= k < e - 1 ==> !TerminatorAt(s, k))
  }

  /** The expression has no match starting at `p`. */
  ghost predicate NoRegexMatchAt(s: string, p: int) {
    forall b, e :: !IsRegexMatch(s, p, b, e)
  }

  /** The greedy `\s*` starting at `i`: the first position from `i` on that does not hold whitespace. */
  function SkipWhitespace(s: string, i: nat): (j: nat)
    requires i <= |s|
    ensures i <= j <= |s| && AllWhitespace(s, i, j)
    ensures j < |s| ==> !IsJsWhitespace(s[j])
    decreases |s| - i
  {
    if i < |s| && IsJsWhitespace(s[i]) then SkipWhitespace(s, i + 1) else i
  }

  /** The lazy `.*?\};` starting at `i`: the first `};` from `i` on. */
  function FindTerminator(s: string, i: nat): (r: Option<nat>)
    ensures r.Some? ==> i <= r.value && TerminatorAt(s, r.value)
    ensures r.Some? ==> forall k :: i <= k < r.value ==> !TerminatorAt(s, k)
    ensures r.None? ==> forall k :: i <= k ==> !TerminatorAt(s, k)
    decreases |s| - i
  {
    if i + 1 >= |s| then None
    else if TerminatorAt(s, i) then Some(i)
    else FindTerminator(s, i + 1)
  }

  /** The end of an attempt, from the `{` candidate at `b`: the lazy `.*?\};`. */
  function BraceAt(s: string, b: nat): (m: Option<Span>)
    requires b <= |s|
    ensures m.Some? ==> m.value.start == b < m.value.end < |s|
    ensures m.Some? ==> s[b] == '{' && TerminatorAt(s, m.value.end - 1)
  {
    if b == |s| || s[b] != '{' then None
    else
      match FindTerminator(s, b + 1)
      case None => None
      case Some(j) => Some(Span(b, j + 1))
  }

  /** The middle of an attempt, from the `=` candidate at `q`: `=\s*` and the rest. */
  function EqualsAt(s: string, q: nat): (m: Option<Span>)
    requires q <= |s|
    ensures m.Some? ==> q < m.value.start < m.value.end < |s|
    ensures m.Some? ==> s[m.value.start] == '{' && TerminatorAt(s, m.value.end - 1)
  {
    if q == |s| || s[q] != '=' then None
    else BraceAt(s, SkipWhitespace(s, q + 1))
  }

  /** An attempt of the expression at position `p`. Neither `\s*` needs to
      backtrack, because the character after each (`=`, `{`) is not whitespace. */
  function MatchAt(s: string, p: nat): (m: Option<Span>)
    ensures m.Some? ==> m.value.start < m.value.end < |s|
    ensures m.Some? ==> s[m.value.start] == '{' && TerminatorAt(s, m.value.end - 1)
  {
    if !MarkerAt(s, p) then None
    else EqualsAt(s, SkipWhitespace(s, p + |Marker|))
  }

  /** The leftmost position at or after `from` where an attempt succeeds. */
  function LeftmostMatch(s: string, from: nat): (r: Option<nat>)
    ensures r.Some? ==> from <= r.value && MatchAt(s, r.value).Some?
    decreases |s| - from
  {
    if from >= |s| then None
    else if MatchAt(s, from).Some? then Some(from)
    else LeftmostMatch(s, from + 1)
  }

  /** No attempt before the position `LeftmostMatch` reports succeeds, and when
      it reports none, no attempt from `from` on does. */
  lemma {:induction false} LeftmostMatchIsLeftmost(s: string, from: nat, k: nat)
    requires from <= k
    requires LeftmostMatch(s, from).Some? ==> k < LeftmostMatch(s, from).value
    ensures MatchAt(s, k).None?
    decreases |s| - from
  {
    if from < k && from < |s| {
      LeftmostMatchIsLeftmost(s, from + 1, k);
    }
  }

  /** `html.match(...)`, reduced to its capture group `match[1]`, or `None` when
      `match` is `null`. */
  function ScanPayload(html: string): (r: Option<string>)
    ensures r.Some? ==> |r.value| >= 2 && r.value[0] == '{' && r.value[|r.value| - 1] == '}'
  {
    match LeftmostMatch(html, 0)
    case None => None
    case Some(p) =>
      var sp := MatchAt(html, p).value;
      Some(html[sp.start..sp.end])
  }

  /** `SkipWhitespace` stops exactly at the first non-whitespace position. */
  lemma SkipWhitespaceStopsAt(s: string, i: nat, q: nat)
    requires i <= q < |s| && AllWhitespace(s, i, q) && !IsJsWhitespace(s[q])
    ensures SkipWhitespace(s, i) == q
  {
  }

  /** `FindTerminator` stops exactly at the first `};` from `i` on. */
  lemma FindTerminatorStopsAt(s: string, i: nat, j: nat)
    requires i <= j && TerminatorAt(s, j)
    requires forall k :: i <= k < j ==> !TerminatorAt(s, k)
    ensures FindTerminator(s, i) == Some(j)
  {
  }

  /** A successful attempt is a match of the expression with that capture. */
  lemma MatchAtSound(s: string, p: nat, b: nat, e: nat)
    requires MatchAt(s, p) == Some(Span(b, e))
    ensures IsRegexMatch(s, p, b, e)
  {
    var q := SkipWhitespace(s, p + |Marker|);
    assert SkipWhitespace(s, q + 1) == b;
    assert FindTerminator(s, b + 1) == Some(e - 1);
    assert p + |Marker| <= q < b && s[q] == '='
           && AllWhitespace(s, p + |Marker|, q) && AllWhitespace(s, q + 1, b);
  }

  /** A match of the expression is what the attempt at its position finds. */
  lemma MatchAtComplete(s: string, p: nat, b: nat, e: nat)
    requires IsRegexMatch(s, p, b, e)
    ensures MatchAt(s, p) == Some(Span(b, e))
  {
    var q :| p + |Marker| <= q < b && s[q] == '='
             && AllWhitespace(s, p + |Marker|, q) && AllWhitespace(s, q + 1, b);
    SkipWhitespaceStopsAt(s, p + |Marker|, q);
    SkipWhitespaceStopsAt(s, q + 1, b);
    FindTerminatorStopsAt(s, b + 1, e - 1);
    assert BraceAt(s, b) == Some(Span(b, e));
    assert EqualsAt(s, q) == Some(Span(b, e));
  }

  /** One attempt of the scan agrees with the declarative description of a match. */
  lemma MatchAtIsRegexMatch(s: string, p: nat, b: nat, e: nat)
    ensures MatchAt(s, p) == Some(Span(b, e)) <==> IsRegexMatch(s, p, b, e)
  {
    if MatchAt(s, p) == Some(Span(b, e)) {
      MatchAtSound(s, p, b, e);
    }
    if IsRegexMatch(s, p, b, e) {
      MatchAtComplete(s, p, b, e);
    }
  }

  /** The expression matches at `p`, capturing `s[b..e]`, and at no earlier position. */
  ghost predicate IsLeftmostRegexMatch(s: string, p: int, b: int, e: int) {
    && 0 <= b <= e <= |s|
    && IsRegexMatch(s, p, b, e)
    && forall p' :: 0 <= p' < p ==> NoRegexMatchAt(s, p')
  }

  /** A failed attempt means the expression has no match there. */
  lemma FailedAttemptHasNoMatch(s: string, p: nat)
    requires MatchAt(s, p).None?
    ensures NoRegexMatchAt(s, p)
  {
    forall b, e | b >= 0 && e >= 0 ensures !IsRegexMatch(s, p, b, e) {
      MatchAtIsRegexMatch(s, p, b, e);
    }
  }

  /** What the scan returns is the capture of the leftmost match. */
  lemma ScanPayloadSound(html: string)
    requires ScanPayload(html).Some?
    ensures var p := LeftmostMatch(html, 0).value;
            var sp := MatchAt(html, p).value;
            IsLeftmostRegexMatch(html, p, sp.start, sp.end)
            && ScanPayload(html).value == html[sp.start..sp.end]
  {
    var p := LeftmostMatch(html, 0).value;
    var sp := MatchAt(html, p).value;
    MatchAtIsRegexMatch(html, p, sp.start, sp.end);
    forall p' | 0 <= p' < p ensures NoRegexMatchAt(html, p') {
      LeftmostMatchIsLeftmost(html, 0, p');
      FailedAttemptHasNoMatch(html, p');
    }
  }

  /** The capture of the leftmost match is what the scan returns. */
  lemma ScanPayloadComplete(html: string, p: int, b: int, e: int)
    requires IsLeftmostRegexMatch(html, p, b, e)
    ensures ScanPayload(html) == Some(html[b..e])
  {
    MatchAtIsRegexMatch(html, p, b, e);
    var l := LeftmostMatch(html, 0);
    if l.None? || p < l.value {
      LeftmostMatchIsLeftmost(html, 0, p);
    }
    assert l.Some? && l.value <= p;
    var sp := MatchAt(html, l.value).value;
    MatchAtIsRegexMatch(html, l.value, sp.start, sp.end);
    assert !NoRegexMatchAt(html, l.value);
    assert l.value == p;
  }

  /** The scan returns `c` exactly when `c` is the capture group of the leftmost
      match of the expression: from the first `{` after the marker through the `}`
      of the first `};` that follows it. */
  lemma ScanPayloadIsLeftmostRegexMatch(html: string, c: string)
    ensures ScanPayload(html) == Some(c) <==>
            exists p, b, e :: IsLeftmostRegexMatch(html, p, b, e) && c == html[b..e]
  {
    if ScanPayload(html) == Some(c) {
      ScanPayloadSound(html);
      var p := LeftmostMatch(html, 0).value;
      var sp := MatchAt(html, p).value;
      assert IsLeftmostRegexMatch(html, p, sp.start, sp.end) && c == html[sp.start..sp.end];
    }
    if exists p, b, e :: IsLeftmostRegexMatch(html, p, b, e) && c == html[b..e] {
      var p, b, e :| IsLeftmostRegexMatch(html, p, b, e) && c == html[b..e];
      ScanPayloadComplete(html, p, b, e);
    }
  }

  /** The scan fails exactly when the expression has no match anywhere in the page. */
  lemma ScanPayloadFailsIffNoMatch(html: string)
    ensures ScanPayload(html).None? <==> forall p :: NoRegexMatchAt(html, p)
  {
    if ScanPayload(html).None? {
      forall p ensures NoRegexMatchAt(html, p) {
        if p >= 0 {
          LeftmostMatchIsLeftmost(html, 0, p);
          FailedAttemptHasNoMatch(html, p);
        } else {
          assert !MarkerAt(html, p);
        }
      }
    } else {
      ScanPayloadSound(html);
      var p := LeftmostMatch(html, 0).value;
      var sp := MatchAt(html, p).value;
      assert IsRegexMatch(html, p, sp.start, sp.end);
      assert !NoRegexMatchAt(html, p);
    }
  }

  /** One entry of `streamingData.formats` or `streamingData.adaptiveFormats`.
      The pipeline passes entries through untouched; only `old/fetch.js` reads
      these three members. */
  datatype Format = Format(mimeType: Option<string>, url: Option<string>, signatureCipher: Option<string>)

  /** `streamingData`, each list missing or present. */
  datatype StreamingData = StreamingData(formats: Option<seq<Format>>, adaptiveFormats: Option<seq<Format>>)

  /** The parsed player response, reduced to the members the pipeline reads:
      `streamingData`, `assets.js` and `videoDetails.title`. */
  datatype PlayerDoc = PlayerDoc(streamingData: Option<StreamingData>, assetsJs: Option<string>, title: Option<string>)

  /** `[...(sd.formats || []), ...(sd.adaptiveFormats || [])]`: the progressive
      formats followed by the adaptive ones, each in source order. */
  function AllFormats(sd: StreamingData): (r: seq<Format>)
    ensures var f, a := sd.formats.GetOr([]), sd.adaptiveFormats.GetOr([]);
            && |r| == |f| + |a|
            && (forall i :: 0 <= i < |f| ==> r[i] == f[i])
            && (forall i :: 0 <= i < |a| ==> r[|f| + i] == a[i])
  {
    sd.formats.GetOr([]) + sd.adaptiveFormats.GetOr([])
  }
}
