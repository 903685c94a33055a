/**
 * The tech-news route: a preview image is resolved for every feed item by an
 * ordered chain of heuristics, and the items of all configured feeds are
 * merged, sorted newest first and cut to a fixed count.
 *
 * Fetching and XML parsing are outside the model: each feed arrives as a
 * `Feed` value, already parsed or failed. Dates are integer timestamps and
 * `new URL(relative, base).href` is the parameter `resolve`, which answers
 * `None` where the URL constructor throws.
 */
module TechNews {
  import opened Options
  import opened JsStrings
  import Sorting

  const PerFeedCap: nat := 5
  const MaxItems: nat := 15
  const DefaultBase: string := "https://example.com"
  const CacheControl: string := "public, s-maxage=3600, stale-while-revalidate=7200"

  /**
   * One value of a parsed feed item, whose shape differs between feed
   * dialects: missing, a string, an object (with an attribute bag `$`
   * holding `url`, and plain `url`, `href` and `type` properties), or an array.
   */
  datatype Node =
    | Absent
    | Str(text: string)
    | Obj(dollarUrl: Option<string>, url: Option<string>, href: Option<string>, mimeType: Option<string>)
    | Arr(elems: seq<Node>)

  /**
   * A parsed item: its date, and its properties in `Object.keys` order. The
   * keys are those of a JavaScript object and so pairwise distinct; `Lookup`
   * takes the first pair with a key, which is then the only one.
   */
  datatype RawItem = RawItem(pubDate: Option<int>, fields: seq<(string, Node)>)

  type Resolver = (string, string) -> Option<string>

  /** JavaScript truthiness of a node. */
  predicate IsTruthy(n: Node) {
    match n
    case Absent => false
    case Str(s) => s != ""
    case _ => true
  }

  /** `item[key]`: the value of the property, `Absent` when there is none. */
  function Lookup(fields: seq<(string, Node)>, key: string): (r: Node)
    ensures r != Absent ==> exists i :: 0 <= i < |fields| && fields[i] == (key, r)
  {
    if fields == [] then Absent
    else if fields[0].0 == key then fields[0].1
    else Lookup(fields[1..], key)
  }

  /** `a ?? b` over nodes. */
  function Coalesce(a: Node, b: Node): Node {
    if a.Absent? then b else a
  }

  /** `Some(s)` when `s` is a non-empty string, as in `if (url) return url`. */
  function NonEmpty(o: Option<string>): (r: Option<string>)
    ensures r.Some? <==> Truthy(o)
    ensures r.Some? ==> r == o
  {
    if Truthy(o) then o else None
  }

  // ---------------------------------------------------------------------------
  // Media nodes

  /** The node whose attributes are read: the first element of an array, else the node itself. */
  function Examined(node: Node): Node {
    if node.Arr? then (if node.elems == [] then Absent else node.elems[0]) else node
  }

  /** `urlFromMediaNode`: `$.url`, falling back to `url`, of the examined object. */
  function UrlFromMediaNode(node: Node): (r: Option<string>)
    ensures node.Absent? || node.Str? || node == Str("") ==> r.None?
    ensures r.Some? ==> Examined(node).Obj?
    ensures Examined(node).Obj? && Examined(node).dollarUrl.Some? ==> r == Examined(node).dollarUrl
    ensures Examined(node).Obj? && Examined(node).dollarUrl.None? ==> r == Examined(node).url
  {
    if !IsTruthy(node) || node.Str? then None
    else
      var obj := Examined(node);
      if !IsTruthy(obj) || obj.Str? then None
      else if obj.Obj? then obj.dollarUrl.OrElse(obj.url)
      else None
  }

  /** Of an array node only the first element is examined; whatever follows it is ignored. */
  lemma FirstElementOnly(x: Node, rest: seq<Node>)
    ensures UrlFromMediaNode(Arr([x] + rest)) == UrlFromMediaNode(Arr([x]))
    ensures x.Obj? ==> UrlFromMediaNode(Arr([x] + rest)) == UrlFromMediaNode(x)
    ensures x.Arr? || x.Str? ==> UrlFromMediaNode(Arr([x] + rest)) == None
  {
  }

  // ---------------------------------------------------------------------------
  // Step 1: the enclosure

  /** The enclosure's type, lower-cased, is missing, empty or an image type. */
  predicate ImageType(mimeType: Option<string>) {
    var t := Lower(mimeType.GetOr(""));
    t == "" || StartsWith(t, "image/")
  }

  /** The URL an enclosure contributes: `url ?? href`, when non-empty and of an image type. */
  function EnclosureUrl(enc: Node): (r: Option<string>)
    ensures r.Some? <==> enc.Obj? && Truthy(enc.url.OrElse(enc.href)) && ImageType(enc.mimeType)
    ensures r.Some? && enc.url.Some? ==> r == enc.url
    ensures r.Some? && enc.url.None? ==> r == enc.href
  {
    if !IsTruthy(enc) || !enc.Obj? then None
    else
      var url := enc.url.OrElse(enc.href);
      if !Truthy(url) then None
      else if ImageType(enc.mimeType) then url
      else None
  }

  /** The type test ignores the case of ASCII letters. */
  lemma ImageTypeIgnoresCase(t: string)
    ensures ImageType(Some(t)) == ImageType(Some(Lower(t)))
  {
    LowerIdempotent(t);
  }

  // ---------------------------------------------------------------------------
  // Steps 2 and 3: the thumbnail and media-content nodes

  /** `item["media:thumbnail"] ?? item.mediaThumbnail` (the third alternative repeats the second). */
  function ThumbnailNode(fields: seq<(string, Node)>): Node {
    Coalesce(Lookup(fields, "media:thumbnail"), Lookup(fields, "mediaThumbnail"))
  }

  /** `item["media:content"] ?? item.mediaContent`. */
  function MediaContentNode(fields: seq<(string, Node)>): Node {
    Coalesce(Lookup(fields, "media:content"), Lookup(fields, "mediaContent"))
  }

  // ---------------------------------------------------------------------------
  // Step 4: the scan over all keys

  /** `/thumbnail|image|media|enclosure/i.test(key)`. */
  predicate KeyMatches(key: string) {
    var k := Lower(key);
    Contains(k, "thumbnail") || Contains(k, "image") || Contains(k, "media") || Contains(k, "enclosure")
  }

  predicate IsHttpUrl(u: string) {
    StartsWith(u, "http://") || StartsWith(u, "https://")
  }

  /** What one property contributes to the key scan. */
  function ScanCandidate(key: string, val: Node): (r: Option<string>)
    ensures r.Some? ==> KeyMatches(key) && key != "enclosure" && IsHttpUrl(r.value)
    ensures r.Some? && UrlFromMediaNode(val).Some? ==> r == UrlFromMediaNode(val)
    ensures r.Some? && UrlFromMediaNode(val).None? ==> val == Str(r.value)
    ensures (KeyMatches(key) && key != "enclosure" && UrlFromMediaNode(val).Some?
             && IsHttpUrl(UrlFromMediaNode(val).value)) ==> r == UrlFromMediaNode(val)
    ensures (KeyMatches(key) && key != "enclosure" && UrlFromMediaNode(val).None?
             && val.Str? && IsHttpUrl(val.text)) ==> r == Some(val.text)
  {
    if KeyMatches(key) && key != "enclosure" then
      var u := UrlFromMediaNode(val).OrElse(if val.Str? then Some(val.text) else None);
      if Truthy(u) && IsHttpUrl(u.value) then u else None
    else None
  }

  /** The first property, in key order, that contributes a URL. */
  function KeyScan(fields: seq<(string, Node)>): Option<string> {
    if fields == [] then None
    else
      var c := ScanCandidate(fields[0].0, fields[0].1);
      if c.Some? then c else KeyScan(fields[1..])
  }

  /** The scan answers the candidate of the first contributing property, and nothing when none contributes. */
  lemma KeyScanIsFirstHit(fields: seq<(string, Node)>)
    ensures KeyScan(fields).None? <==> forall i :: 0 <= i < |fields| ==> ScanCandidate(fields[i].0, fields[i].1).None?
    ensures KeyScan(fields).Some? ==>
      exists i :: 0 <= i < |fields| && KeyScan(fields) == ScanCandidate(fields[i].0, fields[i].1)
                  && forall j :: 0 <= j < i ==> ScanCandidate(fields[j].0, fields[j].1).None?
  {
    KeyScanNone(fields);
    KeyScanFirst(fields);
  }

  lemma {:induction false} KeyScanNone(fields: seq<(string, Node)>)
    ensures KeyScan(fields).None? <==> forall i :: 0 <= i < |fields| ==> ScanCandidate(fields[i].0, fields[i].1).None?
  {
    if fields != [] {
      KeyScanNone(fields[1..]);
      forall i | 0 < i < |fields| ensures fields[i] == fields[1..][i - 1] {
      }
    }
  }

  lemma {:induction false} KeyScanFirst(fields: seq<(string, Node)>)
    ensures KeyScan(fields).Some? ==>
      exists i :: 0 <= i < |fields| && KeyScan(fields) == ScanCandidate(fields[i].0, fields[i].1)
                  && forall j :: 0 <= j < i ==> ScanCandidate(fields[j].0, fields[j].1).None?
  {
    if fields != [] && ScanCandidate(fields[0].0, fields[0].1).None? && KeyScan(fields).Some? {
      KeyScanFirst(fields[1..]);
      var i :| 0 <= i < |fields[1..]| && KeyScan(fields[1..]) == ScanCandidate(fields[1..][i].0, fields[1..][i].1)
               && forall j :: 0 <= j < i ==> ScanCandidate(fields[1..][j].0, fields[1..][j].1).None?;
      forall j | 0 < j < i + 1 ensures fields[j] == fields[1..][j - 1] {
      }
      assert fields[i + 1] == fields[1..][i];
    }
  }

  /** The exact key "enclosure" never contributes, whatever it holds. */
  lemma EnclosureKeyNeverScanned(fields: seq<(string, Node)>, val: Node)
    ensures KeyScan([("enclosure", val)] + fields) == KeyScan(fields)
  {
    assert ([("enclosure", val)] + fields)[1..] == fields;
  }

  // ---------------------------------------------------------------------------
  // Step 5: the first image of the HTML body

  const HtmlKeys: seq<string> := ["contentEncoded", "content:encoded", "content", "description", "summary"]

  /** The value of the first of `keys` that holds a string, else "". */
  function FirstString(fields: seq<(string, Node)>, keys: seq<string>): string {
    if keys == [] then ""
    else
      match Lookup(fields, keys[0])
      case Str(s) => s
      case _ => FirstString(fields, keys[1..])
  }

  /** A string value at key `k`, with no string at an earlier key, is the one chosen, even when empty. */
  lemma {:induction false} FirstStringIsFirst(fields: seq<(string, Node)>, keys: seq<string>, k: nat)
    requires k < |keys| && Lookup(fields, keys[k]).Str?
    requires forall j :: 0 <= j < k ==> !Lookup(fields, keys[j]).Str?
    ensures FirstString(fields, keys) == Lookup(fields, keys[k]).text
  {
    if k > 0 {
      assert forall j :: 0 <= j < k - 1 ==> keys[1..][j] == keys[j + 1];
      FirstStringIsFirst(fields, keys[1..], k - 1);
    }
  }

  /** With no string at any of `keys`, the result is "". */
  lemma {:induction false} FirstStringNone(fields: seq<(string, Node)>, keys: seq<string>)
    requires forall j :: 0 <= j < |keys| ==> !Lookup(fields, keys[j]).Str?
    ensures FirstString(fields, keys) == ""
  {
    if keys != [] {
      assert forall j :: 0 <= j < |keys| - 1 ==> keys[1..][j] == keys[j + 1];
      FirstStringNone(fields, keys[1..]);
    }
  }

  /** The HTML searched for an image: the first string among the body fields, in fixed order. */
  function HtmlSource(fields: seq<(string, Node)>): string {
    FirstString(fields, HtmlKeys)
  }

  /** An empty string in an earlier body field shadows every later one. */
  lemma EmptyBodyShadows(fields: seq<(string, Node)>, k: nat)
    requires k < |HtmlKeys| && Lookup(fields, HtmlKeys[k]) == Str("")
    requires forall j :: 0 <= j < k ==> !Lookup(fields, HtmlKeys[j]).Str?
    ensures HtmlSource(fields) == ""
  {
    FirstStringIsFirst(fields, HtmlKeys, k);
  }

  /** `item.link ?? "https://example.com"`: the base for relative image URLs. */
  function LinkBase(fields: seq<(string, Node)>): string {
    match Lookup(fields, "link")
    case Str(s) => s
    case _ => DefaultBase
  }

  predicate IsQuote(c: char) {
    c == '"' || c == '\''
  }

  /** `html` holds `<img`, in any letter case, at position `p`. */
  predicate TagAt(html: string, p: nat) {
    p + 4 <= |html| && Lower(html[p..p + 4]) == "<img"
  }

  /** The first `>` at or after `k`, or the end of the text. */
  function GtFrom(html: string, k: nat): (g: nat)
    requires k <= |html|
    ensures k <= g <= |html| && (g < |html| ==> html[g] == '>')
    ensures forall m :: k <= m < g ==> html[m] != '>'
    decreases |html| - k
  {
    if k == |html| || html[k] == '>' then k else GtFrom(html, k + 1)
  }

  /** The end of the longest run of characters outside `"`, `'` and `>` that starts at `k`. */
  function RunEnd(s: string, k: nat): (e: nat)
    requires k <= |s|
    ensures k <= e <= |s| && (e < |s| ==> IsQuote(s[e]) || s[e] == '>')
    ensures forall m :: k <= m < e ==> !IsQuote(s[m]) && s[m] != '>'
    decreases |s| - k
  {
    if k == |s| || IsQuote(s[k]) || s[k] == '>' then k else RunEnd(s, k + 1)
  }

  /**
   * The capture of `attr["']([^"'>]+)["']` when `attr` (lower case, matched
   * without regard to case) starts at position `i` of the tag text `seg`.
   */
  function CaptureAt(seg: string, i: nat, attr: string): (r: Option<string>)
    requires i <= |seg|
    ensures r.Some? ==> r.value != [] && forall m :: 0 <= m < |r.value| ==> !IsQuote(r.value[m]) && r.value[m] != '>'
  {
    var open := i + |attr|;
    if open < |seg| && Lower(seg[i..open]) == attr && IsQuote(seg[open]) then
      var e := RunEnd(seg, open + 1);
      if open + 1 < e < |seg| && IsQuote(seg[e]) then Some(seg[open + 1..e]) else None
    else None
  }

  /**
   * The pattern `attr["']([^"'>]+)["']` read at position `i` with capture
   * `c`: the attribute name in any case, a quote, the non-empty run `c`
   * of characters other than quotes and `>`, and a closing quote.
   */
  predicate CaptureMatches(seg: string, i: nat, attr: string, c: string) {
    var open := i + |attr|;
    var close := open + 1 + |c|;
    c != [] && close < |seg| && Lower(seg[i..open]) == attr && IsQuote(seg[open])
    && seg[open + 1..close] == c && IsQuote(seg[close])
    && forall m :: 0 <= m < |c| ==> !IsQuote(c[m]) && c[m] != '>'
  }

  /** The capture at a position is exactly the one the pattern reads there. */
  lemma CaptureAtIff(seg: string, i: nat, attr: string, c: string)
    requires i <= |seg|
    ensures CaptureAt(seg, i, attr) == Some(c) <==> CaptureMatches(seg, i, attr, c)
  {
    var open := i + |attr|;
    var close := open + 1 + |c|;
    if CaptureMatches(seg, i, attr, c) {
      var e := RunEnd(seg, open + 1);
      assert forall m :: open + 1 <= m < close ==> seg[m] == c[m - open - 1];
      assert e == close;
    }
  }

  /** No position in `k + 1..i` of `seg` has a capture. */
  predicate NoCaptureAfter(seg: string, attr: string, k: nat, i: nat)
    requires i <= |seg|
  {
    forall m :: k < m <= i ==> CaptureAt(seg, m, attr).None?
  }

  /**
   * The greedy `[^>]+` in front of `attr` backs off from the right: the
   * capture at the greatest position in `1..i` that has one.
   */
  function LastCapture(seg: string, attr: string, i: nat): (r: Option<string>)
    requires i <= |seg|
    ensures r.Some? ==> exists k :: 1 <= k <= i && r == CaptureAt(seg, k, attr) && NoCaptureAfter(seg, attr, k, i)
    ensures r.None? ==> forall k :: 1 <= k <= i ==> CaptureAt(seg, k, attr).None?
    decreases i
  {
    if i == 0 then None
    else
      var c := CaptureAt(seg, i, attr);
      if c.Some? then
        assert NoCaptureAfter(seg, attr, i, i);
        c
      else
        NoCaptureExtends(seg, attr, i);
        LastCapture(seg, attr, i - 1)
  }

  /** A position without a capture extends every capture-free stretch that ends just before it. */
  lemma NoCaptureExtends(seg: string, attr: string, i: nat)
    requires 1 <= i <= |seg| && CaptureAt(seg, i, attr).None?
    ensures forall k :: NoCaptureAfter(seg, attr, k, i - 1) ==> NoCaptureAfter(seg, attr, k, i)
  {
  }

  /** The text after the `<img` at `p` up to the first `>`: the only place a match starting there can lie. */
  function TagText(html: string, p: nat): string
    requires p + 4 <= |html|
  {
    html[p + 4..GtFrom(html, p + 4)]
  }

  /** The capture the regex takes when its match starts at the `<img` at `q`, if it has one. */
  function TagCapture(html: string, attr: string, q: nat): Option<string>
    requires TagAt(html, q)
  {
    var seg := TagText(html, q);
    LastCapture(seg, attr, |seg|)
  }

  /** The leftmost `<img` at or after `p` whose tag text holds a match; its capture. */
  function MatchFrom(html: string, attr: string, p: nat): (r: Option<string>)
    requires p <= |html|
    ensures r.Some? ==> exists q :: p <= q && TagAt(html, q) && TagCapture(html, attr, q) == r
                          && forall q' :: p <= q' < q && TagAt(html, q') ==> TagCapture(html, attr, q').None?
    ensures r.None? ==> forall q :: p <= q && TagAt(html, q) ==> TagCapture(html, attr, q).None?
    decreases |html| - p
  {
    if p + 4 > |html| then None
    else if TagAt(html, p) && TagCapture(html, attr, p).Some? then TagCapture(html, attr, p)
    else
      var rest := MatchFrom(html, attr, p + 1);
      assert forall q :: p <= q && TagAt(html, q) && q != p ==> p + 1 <= q;
      rest
  }

  /** `html.match(/<img[^>]+ATTR["']([^"'>]+)["']/i)?.[1]` for ATTR in {`src=`, `data-src=`}. */
  function ImgMatch(html: string, attr: string): Option<string> {
    MatchFrom(html, attr, 0)
  }

  /** `firstImageFromHtml`: the first quoted `src` (else `data-src`), unescaped and resolved against `base`. */
  function FirstImageFromHtml(html: string, base: string, resolve: Resolver): (r: Option<string>)
    ensures r.Some? ==> exists c :: r == resolve(UnescapeAmp(c), base)
    ensures ImgMatch(html, "src=").Some? ==> r == resolve(UnescapeAmp(ImgMatch(html, "src=").value), base)
    ensures ImgMatch(html, "src=").None? ==> r.None?
  {
    var m := ImgMatch(html, "src=").OrElse(ImgMatch(html, "data-src="));
    DataSrcNeverAlone(html);
    if m.None? then None else resolve(UnescapeAmp(m.value), base)
  }

  /** Text without an `<img` tag yields no image. */
  lemma NoImgTagNoImage(html: string, base: string, resolve: Resolver)
    requires forall q :: !TagAt(html, q)
    ensures FirstImageFromHtml(html, base, resolve).None?
  {
  }

  /** A capture at position `k` means the backward scan from any `i >= k` finds one. */
  lemma {:induction false} LastCaptureFinds(seg: string, attr: string, i: nat, k: nat)
    requires 1 <= k <= i <= |seg| && CaptureAt(seg, k, attr).Some?
    ensures LastCapture(seg, attr, i).Some?
    decreases i
  {
    if CaptureAt(seg, i, attr).None? {
      LastCaptureFinds(seg, attr, i - 1, k);
    }
  }

  /** Wherever `data-src=` matches, `src=` matches five characters further on with the same capture. */
  lemma DataSrcHasSrc(seg: string, k: nat)
    requires 1 <= k <= |seg| && CaptureAt(seg, k, "data-src=").Some?
    ensures k + 5 <= |seg| && CaptureAt(seg, k + 5, "src=") == CaptureAt(seg, k, "data-src=")
  {
    var open := k + 9;
    assert Lower(seg[k..open]) == "data-src=";
    assert seg[k + 5..open] == seg[k..open][5..];
    assert Lower(seg[k + 5..open]) == Lower(seg[k..open])[5..];
  }

  /** A tag whose text matches `data-src=` also matches `src=`. */
  lemma TagDataSrcHasSrc(html: string, q: nat)
    requires TagAt(html, q) && TagCapture(html, "data-src=", q).Some?
    ensures TagCapture(html, "src=", q).Some?
  {
    var seg := TagText(html, q);
    var k :| 1 <= k <= |seg| && LastCapture(seg, "data-src=", |seg|) == CaptureAt(seg, k, "data-src=");
    DataSrcHasSrc(seg, k);
    LastCaptureFinds(seg, "src=", |seg|, k + 5);
  }

  /** The `data-src` pattern never matches a text the `src` pattern misses. */
  lemma DataSrcNeverAlone(html: string)
    ensures ImgMatch(html, "data-src=").Some? ==> ImgMatch(html, "src=").Some?
  {
    if ImgMatch(html, "data-src=").Some? {
      DataSrcSubsumedFrom(html, 0);
    }
  }

  /** When `data-src=` matches from `p` on, so does `src=`. */
  lemma DataSrcSubsumedFrom(html: string, p: nat)
    requires p <= |html| && MatchFrom(html, "data-src=", p).Some?
    ensures MatchFrom(html, "src=", p).Some?
  {
    var q :| p <= q && TagAt(html, q) && TagCapture(html, "data-src=", q) == MatchFrom(html, "data-src=", p);
    TagDataSrcHasSrc(html, q);
  }

  /**
   * The `data-src` alternative never decides the result: `[^>]+src=` also
   * matches inside `data-src=`, so the first pattern succeeds whenever the
   * second would.
   */
  lemma DataSrcSubsumed(html: string, base: string, resolve: Resolver)
    ensures ImgMatch(html, "data-src=").Some? ==> ImgMatch(html, "src=").Some?
    ensures ImgMatch(html, "src=").Some? ==>
      FirstImageFromHtml(html, base, resolve) == resolve(UnescapeAmp(ImgMatch(html, "src=").value), base)
    ensures ImgMatch(html, "src=").None? ==> FirstImageFromHtml(html, base, resolve).None?
  {
    if ImgMatch(html, "data-src=").Some? {
      DataSrcSubsumedFrom(html, 0);
    }
  }

  /**
   * The image of the HTML step is the `src` capture of the first `<img` tag
   * that has one, unescaped and resolved against `base`.
   */
  lemma FirstSrcTagDecides(html: string, base: string, resolve: Resolver, q: nat)
    requires TagAt(html, q) && TagCapture(html, "src=", q).Some?
    requires forall q' :: 0 <= q' < q && TagAt(html, q') ==> TagCapture(html, "src=", q').None?
    ensures FirstImageFromHtml(html, base, resolve) == resolve(UnescapeAmp(TagCapture(html, "src=", q).value), base)
  {
    var m := ImgMatch(html, "src=");
    var q0 :| 0 <= q0 && TagAt(html, q0) && TagCapture(html, "src=", q0) == m
              && forall q' :: 0 <= q' < q0 && TagAt(html, q') ==> TagCapture(html, "src=", q').None?;
    assert q0 == q;
  }

  /** When no `<img` tag carries a quoted `src`, the HTML step yields nothing. */
  lemma NoSrcNoImage(html: string, base: string, resolve: Resolver)
    requires forall q :: TagAt(html, q) ==> TagCapture(html, "src=", q).None?
    ensures FirstImageFromHtml(html, base, resolve).None?
  {
    DataSrcSubsumed(html, base, resolve);
  }

  // ---------------------------------------------------------------------------
  // The resolver chain

  /** The five heuristics in priority order, each already reduced to "a usable URL or nothing". */
  function Steps(item: RawItem, resolve: Resolver): (r: seq<Option<string>>)
    ensures |r| == 5
  {
    var fields := item.fields;
    [ EnclosureUrl(Lookup(fields, "enclosure")),
      NonEmpty(UrlFromMediaNode(ThumbnailNode(fields))),
      NonEmpty(UrlFromMediaNode(MediaContentNode(fields))),
      KeyScan(fields),
      FirstImageFromHtml(HtmlSource(fields), LinkBase(fields), resolve) ]
  }

  /** The first step that yields something. */
  function FirstHit(steps: seq<Option<string>>): Option<string> {
    if steps == [] then None else if steps[0].Some? then steps[0] else FirstHit(steps[1..])
  }

  /** The image of an item: the first heuristic that yields a URL. */
  function ImageFor(item: RawItem, resolve: Resolver): Option<string> {
    FirstHit(Steps(item, resolve))
  }

  /** `FirstHit` answers step `k` exactly when every earlier step yields nothing. */
  lemma {:induction false} FirstHitAt(steps: seq<Option<string>>, k: nat)
    requires k < |steps| && steps[k].Some?
    requires forall j :: 0 <= j < k ==> steps[j].None?
    ensures FirstHit(steps) == steps[k]
  {
    if k > 0 {
      assert forall j :: 0 <= j < k - 1 ==> steps[1..][j] == steps[j + 1];
      FirstHitAt(steps[1..], k - 1);
    }
  }

  /** When every step yields nothing, so does the chain. */
  lemma {:induction false} FirstHitNone(steps: seq<Option<string>>)
    requires forall j :: 0 <= j < |steps| ==> steps[j].None?
    ensures FirstHit(steps).None?
  {
    if steps != [] {
      assert forall j :: 0 <= j < |steps| - 1 ==> steps[1..][j] == steps[j + 1];
      FirstHitNone(steps[1..]);
    }
  }

  /**
   * Strict priority: two items whose first `k + 1` steps agree, step `k`
   * yielding a URL, get the same image, whatever their later steps hold.
   */
  lemma StrictPriority(a: RawItem, b: RawItem, resolve: Resolver, k: nat)
    requires k < 5
    requires Steps(a, resolve)[..k + 1] == Steps(b, resolve)[..k + 1]
    requires Steps(a, resolve)[k].Some?
    ensures ImageFor(a, resolve) == ImageFor(b, resolve)
  {
    var sa, sb := Steps(a, resolve), Steps(b, resolve);
    var i :| 0 <= i <= k && sa[i].Some? && forall j :: 0 <= j < i ==> sa[j].None? by {
      var i := FirstSomeIndex(sa, k);
    }
    assert sa[i] == sa[..k + 1][i] == sb[..k + 1][i] == sb[i];
    assert forall j :: 0 <= j < i ==> sb[j] == sb[..k + 1][j] == sa[..k + 1][j] == sa[j];
    FirstHitAt(sa, i);
    FirstHitAt(sb, i);
  }

  /** The least index up to `k` whose step yields something, given that step `k` does. */
  lemma {:induction false} FirstSomeIndex(steps: seq<Option<string>>, k: nat) returns (i: nat)
    requires k < |steps| && steps[k].Some?
    ensures i <= k && steps[i].Some? && forall j :: 0 <= j < i ==> steps[j].None?
  {
    if steps[0].Some? {
      i := 0;
    } else {
      var i' := FirstSomeIndex(steps[1..], k - 1);
      i := i' + 1;
      assert forall j :: 0 < j < i ==> steps[j] == steps[1..][j - 1];
    }
  }

  lemma JpegIsImage()
    ensures ImageType(Some("image/jpeg"))
  {
    JpegIsLowercase();
    JpegHasImagePrefix();
  }

  lemma JpegIsLowercase()
    ensures Lower("image/jpeg") == "image/jpeg"
  {
    LowerKeepsLowercase("image/jpeg");
  }

  lemma JpegHasImagePrefix()
    ensures StartsWith("image/jpeg", "image/")
  {
    StartsWithJoin("image/", "jpeg");
    assert "image/" + "jpeg" == "image/jpeg";
  }

  /** An enclosure holding an image URL decides the result, ahead of any thumbnail. */
  lemma EnclosureWins(item: RawItem, resolve: Resolver, u: string)
    requires Lookup(item.fields, "enclosure") == Obj(None, Some(u), None, Some("image/jpeg")) && u != ""
    ensures ImageFor(item, resolve) == Some(u)
  {
    JpegIsImage();
    var steps := Steps(item, resolve);
    assert steps[0] == Some(u);
    FirstHitAt(steps, 0);
  }

  /** With nothing from the first four steps, the image comes from the HTML body, resolved against the link. */
  lemma HtmlFallback(item: RawItem, resolve: Resolver)
    requires forall j :: 0 <= j < 4 ==> Steps(item, resolve)[j].None?
    ensures ImageFor(item, resolve) == FirstImageFromHtml(HtmlSource(item.fields), LinkBase(item.fields), resolve)
  {
    var s := Steps(item, resolve);
    if s[4].Some? {
      FirstHitAt(s, 4);
    } else {
      FirstHitNone(s);
    }
  }

  /**
   * The `for (const key of Object.keys(item))` loop of `extractImageUrl`:
   * returns at the first property that contributes a URL.
   */
  method ScanKeys(fields: seq<(string, Node)>) returns (r: Option<string>)
    ensures r == KeyScan(fields)
  {
    for i := 0 to |fields|
      invariant KeyScan(fields) == KeyScan(fields[i..])
    {
      var (key, val) := fields[i];
      assert fields[i..][1..] == fields[i + 1..];
      if KeyMatches(key) && key != "enclosure" {
        var u := UrlFromMediaNode(val).OrElse(if val.Str? then Some(val.text) else None);
        if Truthy(u) && (StartsWith(u.value, "http://") || StartsWith(u.value, "https://")) {
          return u;
        }
      }
    }
    return None;
  }

  /** The priority order read as the source's chain of early returns. */
  lemma ImageForAsChain(item: RawItem, resolve: Resolver)
    ensures var fields := item.fields;
      var enc := EnclosureUrl(Lookup(fields, "enclosure"));
      var thumb := UrlFromMediaNode(ThumbnailNode(fields));
      var media := UrlFromMediaNode(MediaContentNode(fields));
      var scanned := KeyScan(fields);
      ImageFor(item, resolve) ==
        if enc.Some? then enc
        else if Truthy(thumb) then thumb
        else if Truthy(media) then media
        else if scanned.Some? then scanned
        else FirstImageFromHtml(HtmlSource(fields), LinkBase(fields), resolve)
  {
    FirstHitOfFive(Steps(item, resolve));
  }

  lemma FirstHitOfFive(s: seq<Option<string>>)
    requires |s| == 5
    ensures FirstHit(s) == if s[0].Some? then s[0] else if s[1].Some? then s[1]
                           else if s[2].Some? then s[2] else if s[3].Some? then s[3] else s[4]
  {
    if s[0].Some? {
      FirstHitAt(s, 0);
    } else if s[1].Some? {
      FirstHitAt(s, 1);
    } else if s[2].Some? {
      FirstHitAt(s, 2);
    } else if s[3].Some? {
      FirstHitAt(s, 3);
    } else if s[4].Some? {
      FirstHitAt(s, 4);
    } else {
      FirstHitNone(s);
    }
  }

  /**
   * `extractImageUrl`: the steps run in order and the first that finds a URL
   * returns it.
   */
  method ExtractImageUrl(item: RawItem, resolve: Resolver) returns (r: Option<string>)
    ensures r == ImageFor(item, resolve)
  {
    ImageForAsChain(item, resolve);
    var fields := item.fields;
    var link := LinkBase(fields);

    r := EnclosureUrl(Lookup(fields, "enclosure"));
    if r.Some? {
      return;
    }

    var thumbUrl := UrlFromMediaNode(ThumbnailNode(fields));
    if Truthy(thumbUrl) {
      return thumbUrl;
    }

    var contentUrl := UrlFromMediaNode(MediaContentNode(fields));
    if Truthy(contentUrl) {
      return contentUrl;
    }

    r := ScanKeys(fields);
    if r.Some? {
      return;
    }

    r := FirstImageFromHtml(HtmlSource(fields), link, resolve);
  }

  // ---------------------------------------------------------------------------
  // Aggregation

  /** One entry of the response. */
  datatype NewsItem = NewsItem(
    title: string,
    link: string,
    pubDate: int,
    source: string,
    description: Option<string>,
    image: Option<string>)

  /** The outcome of fetching one configured feed. */
  datatype Feed =
    | Failed
    | Fetched(title: Option<string>, hostname: string, items: seq<RawItem>)

  datatype NewsResponse = NewsResponse(items: seq<NewsItem>, cacheControl: Option<string>)

  function Min(a: int, b: int): int {
    if a <= b then a else b
  }

  function PubDate(item: NewsItem): int {
    item.pubDate
  }

  /** A string property, or `default` when it is missing. */
  function StrOr(n: Node, default: string): string {
    if n.Str? then n.text else default
  }

  /** `item.contentSnippet ?? item.content?.slice(0, 200)`. */
  function Description(fields: seq<(string, Node)>): (r: Option<string>)
    ensures Lookup(fields, "contentSnippet").Str? ==> r == Some(Lookup(fields, "contentSnippet").text)
    ensures !Lookup(fields, "contentSnippet").Str? && Lookup(fields, "content").Str? ==>
              var c := Lookup(fields, "content").text;
              r.Some? && |r.value| <= |c| && r.value == c[..|r.value|]
              && (|c| <= 200 ==> r.value == c) && (|c| > 200 ==> |r.value| == 200)
    ensures !Lookup(fields, "contentSnippet").Str? && !Lookup(fields, "content").Str? ==> r.None?
  {
    var snippet := Lookup(fields, "contentSnippet");
    var content := Lookup(fields, "content");
    if snippet.Str? then Some(snippet.text)
    else if content.Str? then Some(content.text[..Min(200, |content.text|)])
    else None
  }

  /** The feed's name: its title, else the host name of its URL. */
  function SourceName(feed: Feed): string
    requires feed.Fetched?
  {
    feed.title.GetOr(feed.hostname)
  }

  /** The entry made from one parsed item. */
  function ToNewsItem(raw: RawItem, source: string, now: int, image: Option<string>): (r: NewsItem)
    ensures Lookup(raw.fields, "title").Str? ==> r.title == Lookup(raw.fields, "title").text
    ensures !Lookup(raw.fields, "title").Str? ==> r.title == ""
    ensures Lookup(raw.fields, "link").Str? ==> r.link == Lookup(raw.fields, "link").text
    ensures !Lookup(raw.fields, "link").Str? ==> r.link == ""
    ensures raw.pubDate.Some? ==> r.pubDate == raw.pubDate.value
    ensures raw.pubDate.None? ==> r.pubDate == now
    ensures r.description == Description(raw.fields)
    ensures r.source == source && r.image == image
  {
    NewsItem(
      StrOr(Lookup(raw.fields, "title"), ""),
      StrOr(Lookup(raw.fields, "link"), ""),
      raw.pubDate.GetOr(now),
      source,
      Description(raw.fields),
      image)
  }

  /** The entries one feed contributes: its first five items, or nothing when it failed. */
  function FeedItems(feed: Feed, now: int, resolve: Resolver): (r: seq<NewsItem>)
    ensures |r| <= PerFeedCap
    ensures feed.Failed? ==> r == []
    ensures feed.Fetched? ==> |r| == Min(PerFeedCap, |feed.items|)
  {
    match feed
    case Failed => []
    case Fetched(_, _, items) =>
      var taken := items[..Min(PerFeedCap, |items|)];
      seq(|taken|, i requires 0 <= i < |taken| =>
        ToNewsItem(taken[i], SourceName(feed), now, ImageFor(taken[i], resolve)))
  }

  /** Entry `k` of a feed's contribution is made from the feed's item `k`, with its resolved image. */
  lemma FeedItemAt(feed: Feed, k: nat, now: int, resolve: Resolver)
    requires feed.Fetched? && k < Min(PerFeedCap, |feed.items|)
    ensures FeedItems(feed, now, resolve)[k]
            == ToNewsItem(feed.items[k], SourceName(feed), now, ImageFor(feed.items[k], resolve))
  {
  }

  /** All feeds' entries, feed after feed. */
  function Merged(feeds: seq<Feed>, now: int, resolve: Resolver): seq<NewsItem> {
    if feeds == [] then [] else FeedItems(feeds[0], now, resolve) + Merged(feeds[1..], now, resolve)
  }

  /** Merging distributes over the concatenation of feed lists. */
  lemma {:induction false} MergedAppend(a: seq<Feed>, b: seq<Feed>, now: int, resolve: Resolver)
    ensures Merged(a + b, now, resolve) == Merged(a, now, resolve) + Merged(b, now, resolve)
  {
    if a == [] {
      assert a + b == b;
    } else {
      var ab := a + b;
      assert ab[0] == a[0] && ab[1..] == a[1..] + b;
      MergedAppend(a[1..], b, now, resolve);
      var head, ra, rb := FeedItems(a[0], now, resolve), Merged(a[1..], now, resolve), Merged(b, now, resolve);
      assert Merged(ab, now, resolve) == head + (ra + rb);
      assert head + (ra + rb) == (head + ra) + rb;
    }
  }

  lemma MergedSingle(feed: Feed, now: int, resolve: Resolver)
    ensures Merged([feed], now, resolve) == FeedItems(feed, now, resolve)
  {
    assert [feed][1..] == [];
  }

  /** One more feed appends its contribution to what the earlier feeds gave. */
  lemma MergedSnoc(feeds: seq<Feed>, f: nat, now: int, resolve: Resolver)
    requires f < |feeds|
    ensures Merged(feeds[..f + 1], now, resolve) == Merged(feeds[..f], now, resolve) + FeedItems(feeds[f], now, resolve)
  {
    assert feeds[..f + 1] == feeds[..f] + [feeds[f]];
    MergedAppend(feeds[..f], [feeds[f]], now, resolve);
    MergedSingle(feeds[f], now, resolve);
  }

  /** A failed feed contributes nothing and disturbs nobody else's contribution. */
  lemma FailedFeedContributesNothing(a: seq<Feed>, b: seq<Feed>, now: int, resolve: Resolver)
    ensures Merged(a + [Failed] + b, now, resolve) == Merged(a + b, now, resolve)
  {
    MergedAppend(a + [Failed], b, now, resolve);
    MergedAppend(a, [Failed], now, resolve);
    MergedAppend(a, b, now, resolve);
    MergedSingle(Failed, now, resolve);
  }

  /** Whatever feed `i` brings, the other feeds' entries are all still there when it fails instead. */
  lemma FailureIsIsolated(feeds: seq<Feed>, i: nat, now: int, resolve: Resolver)
    requires i < |feeds|
    ensures multiset(Merged(feeds[i := Failed], now, resolve)) + multiset(FeedItems(feeds[i], now, resolve))
            == multiset(Merged(feeds, now, resolve))
  {
    var a, b := feeds[..i], feeds[i + 1..];
    assert feeds == a + [feeds[i]] + b;
    assert feeds[i := Failed] == a + [Failed] + b;
    FailedFeedContributesNothing(a, b, now, resolve);
    MergedAppend(a + [feeds[i]], b, now, resolve);
    MergedAppend(a, [feeds[i]], now, resolve);
    MergedAppend(a, b, now, resolve);
    MergedSingle(feeds[i], now, resolve);
  }

  /** At most five entries per feed reach the merge. */
  lemma {:induction false} MergedBound(feeds: seq<Feed>, now: int, resolve: Resolver)
    ensures |Merged(feeds, now, resolve)| <= PerFeedCap * |feeds|
  {
    if feeds != [] {
      MergedBound(feeds[1..], now, resolve);
    }
  }

  lemma PrefixSnoc<T>(s: seq<T>, k: nat)
    requires k < |s|
    ensures s[..k + 1] == s[..k] + [s[k]]
  {
  }

  /** The entries one feed contributes: its first five items, each with its image resolved. */
  method CollectFeed(feed: Feed, now: int, resolve: Resolver) returns (r: seq<NewsItem>)
    ensures r == FeedItems(feed, now, resolve)
  {
    r := [];
    match feed
    case Failed =>
    case Fetched(title, hostname, items) =>
      var source := title.GetOr(hostname);
      var taken := items[..Min(PerFeedCap, |items|)];
      ghost var contributed := FeedItems(feed, now, resolve);
      for k := 0 to |taken|
        invariant r == contributed[..k]
      {
        var raw := taken[k];
        var image := ExtractImageUrl(raw, resolve);
        var item := ToNewsItem(raw, source, now, image);
        FeedItemAt(feed, k, now, resolve);
        assert raw == feed.items[k] && source == SourceName(feed);
        assert item == contributed[k];
        PrefixSnoc(contributed, k);
        r := r + [item];
      }
      assert contributed[..|taken|] == contributed;
  }

  /** The loop over the settled feeds: every feed's contribution, in feed order. */
  method CollectAll(feeds: seq<Feed>, now: int, resolve: Resolver) returns (allItems: seq<NewsItem>)
    ensures allItems == Merged(feeds, now, resolve)
  {
    allItems := [];
    for f := 0 to |feeds|
      invariant allItems == Merged(feeds[..f], now, resolve)
    {
      MergedSnoc(feeds, f, now, resolve);
      var contributed := CollectFeed(feeds[f], now, resolve);
      allItems := allItems + contributed;
    }
    assert feeds[..|feeds|] == feeds;
  }

  /**
   * `GET`: every feed's first five items are pushed onto one list, which is
   * sorted newest first in place and cut to fifteen.
   */
  method Get(feeds: seq<Feed>, now: int, resolve: Resolver) returns (resp: NewsResponse)
    ensures resp.cacheControl == Some(CacheControl)
    ensures |resp.items| == Min(MaxItems, |Merged(feeds, now, resolve)|)
    ensures Sorting.SortedDesc(resp.items, PubDate)
    ensures multiset(resp.items) <= multiset(Merged(feeds, now, resolve))
    ensures forall x, y :: x in multiset(Merged(feeds, now, resolve)) - multiset(resp.items) && y in resp.items
              ==> x.pubDate <= y.pubDate
  {
    var allItems := CollectAll(feeds, now, resolve);

    var a := new NewsItem[|allItems|](i requires 0 <= i < |allItems| => allItems[i]);
    assert a[..] == allItems;
    Sorting.SortDescending(a, PubDate);
    var n := Min(MaxItems, a.Length);
    Sorting.SortedPrefixIsTop(a[..], PubDate, n);
    resp := NewsResponse(a[..n], Some(CacheControl));
    assert resp.items == a[..][..n];
  }
}
