/** `old/fetch.js`: the command-line variant that extracts the player response
    from a watch page and lists the available streams: the concatenated formats
    reduced to `{mime, url}` entries with a usable URL, each shown with its
    1-based number and the `url=` parameter of its cipher string.

    The page fetch, writing the JSON file and the console output are I/O and
    stay outside; `JSON.parse` is a parameter, and `decodeURIComponent` is left
    abstract: the model yields the string handed to it. */
module LegacyFetch {
  import opened Results
  import opened Text
  import opened PlayerResponse

  /** The Error message of this variant's `extractPlayerResponse` (old/fetch.js:14). */
  const PayloadNotFoundMessage: string := "\U{274C} ytInitialPlayerResponse not found"

  /** `extractPlayerResponse`: the same expression as the server's, with its own message. */
  function ExtractPlayerResponse(html: string, parse: string -> Result<PlayerDoc>): (r: Result<PlayerDoc>)
    ensures ScanPayload(html).None? ==> r == Err(PayloadNotFoundMessage)
    ensures ScanPayload(html).Some? ==> r == parse(ScanPayload(html).value)
  {
    match ScanPayload(html)
    case None => Err(PayloadNotFoundMessage)
    case Some(payload) => parse(payload)
  }

  /** `[...formats, ...adaptiveFormats]` with `streamingData || {}` and each list
      `|| []`: a missing section or list contributes nothing. */
  function CandidateFormats(doc: PlayerDoc): (r: seq<Format>)
    ensures doc.streamingData.None? ==> r == []
    ensures doc.streamingData.Some? ==> r == AllFormats(doc.streamingData.value)
  {
    AllFormats(doc.streamingData.GetOr(StreamingData(None, None)))
  }

  /** One `{mime, url}` entry of the list. */
  datatype StreamEntry = StreamEntry(mime: Option<string>, url: Option<string>)

  /** `({ mime: f.mimeType, url: f.url || f.signatureCipher })`. */
  function ToEntry(f: Format): StreamEntry {
    StreamEntry(f.mimeType, if Truthy(f.url) then f.url else f.signatureCipher)
  }

  /** The entry of `f` survives `.filter(f => f.url)`. */
  predicate Usable(f: Format) {
    Truthy(ToEntry(f).url)
  }

  /** `formats.map(ToEntry).filter(e => e.url)`. */
  function StreamList(formats: seq<Format>): (r: seq<StreamEntry>)
    ensures forall k :: 0 <= k < |r| ==> Truthy(r[k].url)
  {
    if formats == [] then []
    else
      var init := StreamList(formats[..|formats| - 1]);
      var f := formats[|formats| - 1];
      if Usable(f) then init + [ToEntry(f)] else init
  }

  /** The list is never longer than the formats it comes from. */
  lemma {:induction false} StreamListBound(formats: seq<Format>)
    ensures |StreamList(formats)| <= |formats|
  {
    if formats != [] {
      StreamListBound(formats[..|formats| - 1]);
    }
  }

  /** Listing distributes over concatenation, so entries keep the relative
      order of their formats. */
  lemma {:induction false} StreamListConcat(a: seq<Format>, b: seq<Format>)
    ensures StreamList(a + b) == StreamList(a) + StreamList(b)
    decreases |b|
  {
    if b == [] {
      assert a + b == a;
    } else {
      var binit := b[..|b| - 1];
      StreamListConcat(a, binit);
      assert (a + b)[..|a + b| - 1] == a + binit;
    }
  }

  /** An entry is listed exactly when some format with a usable URL maps to it. */
  lemma {:induction false} StreamListMembership(formats: seq<Format>, e: StreamEntry)
    ensures e in StreamList(formats) <==> exists i :: 0 <= i < |formats| && Usable(formats[i]) && ToEntry(formats[i]) == e
  {
    if formats != [] {
      var init := formats[..|formats| - 1];
      StreamListMembership(init, e);
      if exists i :: 0 <= i < |init| && Usable(init[i]) && ToEntry(init[i]) == e {
        var i :| 0 <= i < |init| && Usable(init[i]) && ToEntry(init[i]) == e;
        assert formats[i] == init[i];
      }
      if exists i :: 0 <= i < |formats| && Usable(formats[i]) && ToEntry(formats[i]) == e {
        var i :| 0 <= i < |formats| && Usable(formats[i]) && ToEntry(formats[i]) == e;
        if i < |init| {
          assert init[i] == formats[i];
        }
      }
    }
  }

  /** When every format has a usable URL, the list has one entry per format, in order. */
  lemma {:induction false} StreamListAllUsable(formats: seq<Format>)
    requires forall i :: 0 <= i < |formats| ==> Usable(formats[i])
    ensures |StreamList(formats)| == |formats|
    ensures forall i :: 0 <= i < |formats| ==> StreamList(formats)[i] == ToEntry(formats[i])
  {
    if formats != [] {
      var init := formats[..|formats| - 1];
      assert forall i :: 0 <= i < |init| ==> init[i] == formats[i];
      StreamListAllUsable(init);
    }
  }

  /** The index of the first piece starting with `prefix`, if any. */
  function FirstWithPrefix(pieces: seq<string>, prefix: string): (r: Option<nat>)
    ensures r.Some? ==> r.value < |pieces| && StartsWith(pieces[r.value], prefix)
    ensures r.Some? ==> forall j :: 0 <= j < r.value ==> !StartsWith(pieces[j], prefix)
    ensures r.None? ==> forall j :: 0 <= j < |pieces| ==> !StartsWith(pieces[j], prefix)
  {
    if pieces == [] then None
    else if StartsWith(pieces[0], prefix) then Some(0)
    else match FirstWithPrefix(pieces[1..], prefix)
      case None => None
      case Some(k) => Some(k + 1)
  }

  /** The string handed to `decodeURIComponent` for a listed URL `u`:
      `u.split('&').find(p => p.startsWith('url='))?.slice(4) || u`. */
  function DisplayTarget(u: string): string {
    var pieces := Split(u, '&');
    match FirstWithPrefix(pieces, "url=")
    case Some(k) => if |pieces[k]| > 4 then pieces[k][4..] else u
    case None => u
  }

  /** The target is the value of the first `&`-piece starting with `url=` when
      that value is non-empty, and the whole URL otherwise. */
  lemma DisplayTargetIsFirstUrlParameter(u: string, k: nat)
    requires k < |Split(u, '&')| && StartsWith(Split(u, '&')[k], "url=")
    requires forall j :: 0 <= j < k ==> !StartsWith(Split(u, '&')[j], "url=")
    ensures var piece := Split(u, '&')[k];
            DisplayTarget(u) == if |piece| > 4 then piece[4..] else u
  {
    var pieces := Split(u, '&');
    var r := FirstWithPrefix(pieces, "url=");
    assert r == Some(k);
  }

  /** Without a `url=` piece the whole URL is the target. */
  lemma DisplayTargetWithoutUrlParameter(u: string)
    requires forall j :: 0 <= j < |Split(u, '&')| ==> !StartsWith(Split(u, '&')[j], "url=")
    ensures DisplayTarget(u) == u
  {
  }

  /** The target is either the whole URL or a non-empty value that, behind `url=`,
      is one of its `&`-pieces. */
  lemma DisplayTargetShape(u: string)
    ensures var t := DisplayTarget(u);
            t == u || (t != "" && "url=" + t in Split(u, '&'))
  {
    var pieces := Split(u, '&');
    match FirstWithPrefix(pieces, "url=")
    case Some(k) =>
      if |pieces[k]| > 4 {
        assert pieces[k] == "url=" + pieces[k][4..];
      }
    case None =>
  }

  /** A listing line: `${i + 1}. ${mime}` and the target decoded under it. */
  datatype ListingLine = ListingLine(number: nat, mime: Option<string>, target: string)

  /** The lines `urls.forEach((u, i) => ...)` prints: numbered from 1 in list order. */
  function Listing(entries: seq<StreamEntry>): (r: seq<ListingLine>)
    requires forall k :: 0 <= k < |entries| ==> entries[k].url.Some?
    ensures |r| == |entries|
    ensures forall i :: 0 <= i < |r| ==> r[i].number == i + 1 && r[i].mime == entries[i].mime
    ensures forall i :: 0 <= i < |r| ==> r[i].target == DisplayTarget(entries[i].url.value)
  {
    seq(|entries|, i requires 0 <= i < |entries| => ListingLine(i + 1, entries[i].mime, DisplayTarget(entries[i].url.value)))
  }

  /** What `fetchMwebPlayerResponse` computes from the page, before any output:
      the extracted document's candidate formats as listing lines; the error of
      the extraction otherwise. The numbers are consecutive from 1 and there are
      never more lines than candidate formats. */
  function StreamListing(html: string, parse: string -> Result<PlayerDoc>): (r: Result<seq<ListingLine>>)
    ensures ExtractPlayerResponse(html, parse).Err? ==> r == Err(ExtractPlayerResponse(html, parse).error)
    ensures r.Ok? ==> ExtractPlayerResponse(html, parse).Ok?
    ensures r.Ok? ==> |r.value| <= |CandidateFormats(ExtractPlayerResponse(html, parse).value)|
    ensures r.Ok? ==> forall i :: 0 <= i < |r.value| ==> r.value[i].number == i + 1
    ensures r.Ok? ==> r.value == Listing(StreamList(CandidateFormats(ExtractPlayerResponse(html, parse).value)))
  {
    match ExtractPlayerResponse(html, parse)
    case Err(m) => Err(m)
    case Ok(doc) =>
      var entries := StreamList(CandidateFormats(doc));
      StreamListBound(CandidateFormats(doc));
      Ok(Listing(entries))
  }
}
