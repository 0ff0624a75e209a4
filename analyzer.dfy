/** The website classifier `analyze_website` (system/03_scripts/lead_collector.py:13-99).
    Given a company's website URL and what the analysis page yields when it is sent
    there (its links and raw HTML, or the point at which loading failed), it works out
    which social platforms the site links to, whether it offers a contact form, which
    kinds of web catalog it links to, and a remark when the analysis broke off.
    The browser itself is not modelled: `Visit` is what it returned. */
module Analyzer {
  import opened Text

  /** One `<a>` element of the page: its resolved `href` and its `innerText`.
      The text is `None` when the element has no `innerText`, and calling
      `.lower()` on it raises. In a browser that is an `<a>` inside an SVG
      drawing, whose `href` is not a string either; the model keeps a string
      href beside the missing text as its stand-in for such an element. */
  datatype Link = Link(href: string, text: Option<string>)

  /** What loading the site produced. `page.goto` or the link enumeration can
      fail before anything is recorded; `page.content()` can fail after the
      social platforms have been recorded. A loaded page can still make the
      form or the catalog scan raise, through a link without text. */
  datatype Visit =
    | NavigationFailed(message: string)
    | ContentFailed(links: seq<Link>, message: string)
    | Loaded(links: seq<Link>, content: string)

  /** The `info` dictionary: "sns", "has_form", "catalog_types", "remarks". */
  datatype Analysis = Analysis(sns: set<string>, hasForm: bool, catalogTypes: set<string>, remarks: seq<string>)

  /** The value `info` starts with, and what a lead without a website gets. */
  const NoAnalysis := Analysis({}, false, {}, [])

  /** Domain fragment to platform name, in the order of the source's table. */
  const SnsDomains: seq<(string, string)> := [
    ("twitter.com", "Twitter"),
    ("x.com", "X"),
    ("facebook.com", "Facebook"),
    ("instagram.com", "Instagram"),
    ("youtube.com", "YouTube"),
    ("linkedin.com", "LinkedIn"),
    ("line.me", "LINE")
  ]

  const FormKeywords: seq<string> := ["contact", "inquiry", "form", "お問い合わせ", "お問合せ", "相談", "申込"]
  const CatalogKeywords: seq<string> := ["catalog", "catalogue", "カタログ", "電子カタログ", "デジタルカタログ", "冊子"]
  /** Signs in a link target that it opens an e-book viewer. */
  const ViewerHrefMarkers: seq<string> := ["book", "viewer", "ebook", "digital"]
  /** Signs in a link text that it leads to an electronic ("電子") or digital ("デジタル") catalog. */
  const ViewerTextMarkers: seq<string> := ["電子", "デジタル"]

  const Pdf := "PDF"
  const Book := "book"
  const ErrorPrefix := "Webサイト解析エラー: "
  /** What `str(e)` gives for the `AttributeError` of `None.lower()`. */
  const NoTextError := "'NoneType' object has no attribute 'lower'"

  /** An empty URL or the "なし" (none) sentinel is not visited at all. */
  predicate Skipped(url: string)
  {
    url == "" || url == "なし"
  }

  /** The remark recorded when the analysis raises: the prefix and at most
      the first 50 code points of the exception message. */
  function ErrorRemark(message: string): (r: string)
    ensures |ErrorPrefix| <= |r| && r[..|ErrorPrefix|] == ErrorPrefix
    ensures |r| <= |ErrorPrefix| + 50
    ensures |message| <= 50 ==> r == ErrorPrefix + message
    ensures |message| > 50 ==> r == ErrorPrefix + message[..50]
  {
    ErrorPrefix + Truncate(message, 50)
  }

  /** `any(k in a or k in b for k in keywords)` */
  predicate EitherContainsAny(a: string, b: string, keywords: seq<string>)
  {
    exists k | k in keywords :: Contains(a, k) || Contains(b, k)
  }

  // ---------------------------------------------------------------------------
  // Social platforms

  /** The platform names whose domain fragment occurs in one link target. */
  function HrefPlatforms(href: string): set<string>
  {
    set j | 0 <= j < |SnsDomains| && Contains(href, SnsDomains[j].0) :: SnsDomains[j].1
  }

  /** The platforms found over a list of links, accumulated link by link. */
  function SnsOf(links: seq<Link>): set<string>
  {
    if links == [] then {} else SnsOf(links[..|links| - 1]) + HrefPlatforms(links[|links| - 1].href)
  }

  /** The link's target names the platform through one of its table entries. */
  predicate ShowsPlatform(link: Link, name: string)
  {
    exists j | 0 <= j < |SnsDomains| :: SnsDomains[j].1 == name && Contains(link.href, SnsDomains[j].0)
  }

  /** A platform is reported exactly when some link's target contains one of its domains. */
  lemma {:induction false} SnsOfExactly(links: seq<Link>, name: string)
    ensures name in SnsOf(links) <==> exists i | 0 <= i < |links| :: ShowsPlatform(links[i], name)
    decreases |links|
  {
    if links != [] {
      var init := links[..|links| - 1];
      SnsOfExactly(init, name);
      if name in HrefPlatforms(links[|links| - 1].href) {
        assert ShowsPlatform(links[|links| - 1], name);
      }
      if ShowsPlatform(links[|links| - 1], name) {
        var j :| 0 <= j < |SnsDomains| && SnsDomains[j].1 == name && Contains(links[|links| - 1].href, SnsDomains[j].0);
        assert name in HrefPlatforms(links[|links| - 1].href);
      }
      forall i | 0 <= i < |init| ensures init[i] == links[i] { }
    }
  }

  /** The platform set depends only on which links the page has, not on their
      order or on how often each appears. */
  lemma SnsOrderIndependent(a: seq<Link>, b: seq<Link>)
    requires forall l :: l in a <==> l in b
    ensures SnsOf(a) == SnsOf(b)
  {
    forall name | name in SnsOf(a) ensures name in SnsOf(b) {
      SnsOfExactly(a, name);
      var i :| 0 <= i < |a| && ShowsPlatform(a[i], name);
      assert a[i] in b;
      var k :| 0 <= k < |b| && b[k] == a[i];
      SnsOfExactly(b, name);
    }
    forall name | name in SnsOf(b) ensures name in SnsOf(a) {
      SnsOfExactly(b, name);
      var i :| 0 <= i < |b| && ShowsPlatform(b[i], name);
      assert b[i] in a;
      var k :| 0 <= k < |a| && a[k] == b[i];
      SnsOfExactly(a, name);
    }
  }

  /** Only names from the platform table are ever reported. */
  lemma {:induction false} SnsOfNamesKnown(links: seq<Link>)
    ensures forall name | name in SnsOf(links) :: exists j | 0 <= j < |SnsDomains| :: SnsDomains[j].1 == name
    decreases |links|
  {
    if links != [] {
      SnsOfNamesKnown(links[..|links| - 1]);
    }
  }

  /** A target in which exactly one table entry's domain occurs names that entry's platform only. */
  lemma SinglePlatform(href: string, j0: nat)
    requires j0 < |SnsDomains| && Contains(href, SnsDomains[j0].0)
    requires forall j | 0 <= j < |SnsDomains| && j != j0 :: !Contains(href, SnsDomains[j].0)
    ensures HrefPlatforms(href) == {SnsDomains[j0].1}
  {
  }

  /** None of the other domains occurs in an Instagram profile link. */
  lemma InstagramMissesOthers()
    ensures forall j | 0 <= j < |SnsDomains| && j != 3 :: !Contains("https://www.instagram.com/x", SnsDomains[j].0)
  {
    var ig := "https://www.instagram.com/x";
    NotContainsAt(ig, "twitter.com", 5);
    NotContainsAt(ig, "x.com", 0);
    NotContainsAt(ig, "facebook.com", 0);
    NotContainsAt(ig, "youtube.com", 0);
    NotContainsAt(ig, "linkedin.com", 0);
    NotContainsAt(ig, "line.me", 0);
  }

  /** An Instagram profile link names Instagram and no other platform. */
  lemma InstagramLinkPlatforms()
    ensures HrefPlatforms("https://www.instagram.com/x") == {"Instagram"}
  {
    var ig := "https://www.instagram.com/x";
    assert ig[12..25] == "instagram.com";
    ContainsPiece(ig, 12, "instagram.com");
    InstagramMissesOthers();
    SinglePlatform(ig, 3);
  }

  /** None of the other domains occurs in a Twitter profile link. */
  lemma TwitterMissesOthers()
    ensures forall j | 0 <= j < |SnsDomains| && j != 0 :: !Contains("https://twitter.com/y", SnsDomains[j].0)
  {
    var tw := "https://twitter.com/y";
    NotContainsAt(tw, "x.com", 0);
    NotContainsAt(tw, "facebook.com", 0);
    NotContainsAt(tw, "instagram.com", 0);
    NotContainsAt(tw, "youtube.com", 0);
    NotContainsAt(tw, "linkedin.com", 0);
    NotContainsAt(tw, "line.me", 0);
  }

  /** A Twitter profile link names Twitter and no other platform. */
  lemma TwitterLinkPlatforms()
    ensures HrefPlatforms("https://twitter.com/y") == {"Twitter"}
  {
    var tw := "https://twitter.com/y";
    ContainsPiece(tw, 8, "twitter.com");
    TwitterMissesOthers();
    SinglePlatform(tw, 0);
  }

  /** Links to an Instagram and a Twitter profile give exactly Instagram and
      Twitter, in either order and however often each link is repeated. */
  lemma InstagramAndTwitter()
    ensures SnsOf([Link("https://www.instagram.com/x", Some("")), Link("https://twitter.com/y", Some(""))]) == {"Instagram", "Twitter"}
    ensures SnsOf([Link("https://twitter.com/y", Some("")), Link("https://www.instagram.com/x", Some("")), Link("https://twitter.com/y", Some(""))])
            == {"Instagram", "Twitter"}
  {
    var ig := Link("https://www.instagram.com/x", Some(""));
    var tw := Link("https://twitter.com/y", Some(""));
    InstagramLinkPlatforms();
    TwitterLinkPlatforms();
    var a := [ig, tw];
    assert [ig][..0] == [];
    assert SnsOf([ig]) == {"Instagram"};
    assert a[..1] == [ig];
    assert SnsOf(a) == SnsOf([ig]) + HrefPlatforms(tw.href);
    SnsOrderIndependent(a, [tw, ig, tw]);
  }

  // ---------------------------------------------------------------------------
  // Contact form

  /** The text of a link that has one; the empty string stands in for a missing
      text where no step reads it. */
  function TextOf(link: Link): string
  {
    match link.text
    case Some(t) => t
    case None => ""
  }

  /** A link with text whose target or text carries a contact keyword. */
  predicate LinkMentionsForm(link: Link)
  {
    EitherContainsAny(Lower(link.href), Lower(TextOf(link)), FormKeywords)
  }

  /** How looking at one link for a contact keyword ends. */
  datatype Scan = Hit | Miss | Raised

  /** `any(k in href.lower() or k in text.lower() for k in keywords)` for one link.
      Without text, the first keyword, "contact", is tried on the target alone;
      when it is not there the text's `.lower()` raises. */
  function LinkFormCheck(link: Link): (r: Scan)
    ensures r == Raised <==> link.text.None? && !Contains(Lower(link.href), FormKeywords[0])
  {
    if link.text.None? then
      if Contains(Lower(link.href), FormKeywords[0]) then Hit else Raised
    else if LinkMentionsForm(link) then Hit else Miss
  }

  /** The link scan: the first link that is not a miss decides. */
  function FormScan(links: seq<Link>): Scan
  {
    if links == [] then Miss
    else if LinkFormCheck(links[0]) == Miss then FormScan(links[1..])
    else LinkFormCheck(links[0])
  }

  /** The scan's outcome is that of the first link that is not a miss. */
  lemma {:induction false} FormScanFirst(links: seq<Link>, j: nat)
    requires j < |links| && LinkFormCheck(links[j]) != Miss
    requires forall k | 0 <= k < j :: LinkFormCheck(links[k]) == Miss
    ensures FormScan(links) == LinkFormCheck(links[j])
  {
    if j > 0 {
      assert LinkFormCheck(links[0]) == Miss;
      forall k | 0 <= k < j - 1 ensures LinkFormCheck(links[1..][k]) == Miss {
        assert links[1..][k] == links[k + 1];
      }
      FormScanFirst(links[1..], j - 1);
    }
  }

  /** The scan misses exactly when every link misses. */
  lemma {:induction false} FormScanAllMiss(links: seq<Link>)
    ensures FormScan(links) == Miss <==> forall k | 0 <= k < |links| :: LinkFormCheck(links[k]) == Miss
    decreases |links|
  {
    if links != [] {
      FormScanAllMiss(links[1..]);
      if LinkFormCheck(links[0]) == Miss {
        forall k | 0 <= k < |links| - 1 ensures links[1..][k] == links[k + 1] { }
        assert forall k | 1 <= k < |links| :: links[k] == links[1..][k - 1];
      }
    }
  }

  /** The contact-form decision, tier by tier. The URL tier wins outright; once
      the page holds a `<form` tag its answer is final and the links are not looked
      at; only a page without a `<form` tag falls through to the link scan. */
  function FormDetected(url: string, content: string, links: seq<Link>): bool
  {
    if ContainsAny(Lower(url), FormKeywords) then true
    else if Contains(Lower(content), "<form") then Contains(Lower(content), "submit") || Contains(content, "送信")
    else FormScan(links) == Hit
  }

  /** The form step raises: the link scan runs and stops at a link without text. */
  predicate FormRaises(url: string, content: string, links: seq<Link>)
  {
    !ContainsAny(Lower(url), FormKeywords) && !Contains(Lower(content), "<form") && FormScan(links) == Raised
  }

  /** Tier one: a contact keyword in the URL settles it, whatever the page holds. */
  lemma FormFromUrl(url: string, content: string, links: seq<Link>)
    requires ContainsAny(Lower(url), FormKeywords)
    ensures FormDetected(url, content, links) && !FormRaises(url, content, links)
  {
  }

  /** A URL ending in "/contact-us" has a contact form even when the page holds no form at all. */
  lemma ContactUsUrl(content: string, links: seq<Link>)
    ensures FormDetected("https://example.jp/contact-us", content, links)
    ensures !FormRaises("https://example.jp/contact-us", content, links)
  {
    var url := "https://example.jp/contact-us";
    LowerFixesLowercase(url);
    ContainsPiece(url, 19, "contact");
    assert "contact" in FormKeywords;
  }

  /** Tier two: with a `<form` tag on the page the answer does not depend on the links. */
  lemma FormTagIgnoresLinks(url: string, content: string, a: seq<Link>, b: seq<Link>)
    requires Contains(Lower(content), "<form")
    ensures FormDetected(url, content, a) == FormDetected(url, content, b)
    ensures !FormRaises(url, content, a)
    ensures !ContainsAny(Lower(url), FormKeywords) ==>
              (FormDetected(url, content, a) <==> Contains(Lower(content), "submit") || Contains(content, "送信"))
  {
  }

  /** Tier three: without a `<form` tag and with every link's text present, a
      contact keyword in any link decides, and the step does not raise. */
  lemma FormFromLinks(url: string, content: string, links: seq<Link>)
    requires !ContainsAny(Lower(url), FormKeywords) && !Contains(Lower(content), "<form")
    requires forall l | l in links :: l.text.Some?
    ensures FormDetected(url, content, links) <==> exists l | l in links :: LinkMentionsForm(l)
    ensures !FormRaises(url, content, links)
  {
    FormScanWithText(links);
    if exists k | 0 <= k < |links| :: LinkMentionsForm(links[k]) {
      var k :| 0 <= k < |links| && LinkMentionsForm(links[k]);
      assert links[k] in links;
    }
  }

  /** Over links that all have text the scan never raises, and it hits exactly
      when some link carries a contact keyword. */
  lemma {:induction false} FormScanWithText(links: seq<Link>)
    requires forall l | l in links :: l.text.Some?
    ensures FormScan(links) != Raised
    ensures FormScan(links) == Hit <==> exists k | 0 <= k < |links| :: LinkMentionsForm(links[k])
    decreases |links|
  {
    if links != [] {
      FormScanWithText(links[1..]);
      forall k | 0 <= k < |links| - 1 ensures links[1..][k] == links[k + 1] { }
      if exists k | 0 <= k < |links| :: LinkMentionsForm(links[k]) {
        var k :| 0 <= k < |links| && LinkMentionsForm(links[k]);
        if k > 0 {
          assert LinkMentionsForm(links[1..][k - 1]);
        }
      }
    }
  }
  // ---------------------------------------------------------------------------
  // Web catalogs

  predicate CatalogLink(link: Link)
  {
    EitherContainsAny(Lower(link.href), Lower(TextOf(link)), CatalogKeywords)
  }

  /** What one link adds to the catalog types. A catalog link whose target
      contains ".pdf" is a PDF; otherwise it is a book when its target has a
      viewer marker, its text says electronic or digital, or its text itself
      carries the catalog keyword. A keyword found only in the target adds nothing. */
  function LinkCatalog(link: Link): set<string>
  {
    var h := Lower(link.href);
    var t := Lower(TextOf(link));
    if !CatalogLink(link) then {}
    else if Contains(h, ".pdf") then {Pdf}
    else if ContainsAny(h, ViewerHrefMarkers) || ContainsAny(t, ViewerTextMarkers) then {Book}
    else if ContainsAny(t, CatalogKeywords) then {Book}
    else {}
  }

  /** What `f` finds in each link, gathered over a list of links, link by link. */
  function Gather(links: seq<Link>, f: Link -> set<string>): set<string>
  {
    if links == [] then {} else Gather(links[..|links| - 1], f) + f(links[|links| - 1])
  }

  /** A value is gathered exactly when some link yields it. */
  lemma {:induction false} GatherExactly(links: seq<Link>, f: Link -> set<string>, x: string)
    ensures x in Gather(links, f) <==> exists i | 0 <= i < |links| :: x in f(links[i])
    decreases |links|
  {
    if links != [] {
      var init := links[..|links| - 1];
      GatherExactly(init, f, x);
      forall i | 0 <= i < |init| ensures init[i] == links[i] { }
    }
  }

  /** The catalog types found over a list of links. */
  function CatalogOf(links: seq<Link>): set<string>
  {
    Gather(links, LinkCatalog)
  }

  /** A catalog link whose target contains ".pdf". */
  predicate PdfLink(link: Link)
  {
    CatalogLink(link) && Contains(Lower(link.href), ".pdf")
  }

  /** A catalog link without ".pdf" that has a viewer sign or names the catalog in its text. */
  predicate BookLink(link: Link)
  {
    CatalogLink(link) && !Contains(Lower(link.href), ".pdf") &&
    (ContainsAny(Lower(link.href), ViewerHrefMarkers) ||
     ContainsAny(Lower(TextOf(link)), ViewerTextMarkers) ||
     ContainsAny(Lower(TextOf(link)), CatalogKeywords))
  }

  /** The link gives catalog type `kind`. */
  predicate GivesKind(link: Link, kind: string)
  {
    (kind == Pdf && PdfLink(link)) || (kind == Book && BookLink(link))
  }

  lemma LinkCatalogKinds(link: Link, kind: string)
    ensures kind in LinkCatalog(link) <==> GivesKind(link, kind)
  {
  }

  /** "PDF" is reported exactly when some catalog link's target contains ".pdf";
      "book" exactly when some catalog link without ".pdf" has a viewer sign or
      names the catalog in its text. */
  lemma CatalogOfExactly(links: seq<Link>, kind: string)
    ensures kind in CatalogOf(links) <==> exists i | 0 <= i < |links| :: GivesKind(links[i], kind)
  {
    GatherExactly(links, LinkCatalog, kind);
    forall i | 0 <= i < |links| ensures kind in LinkCatalog(links[i]) <==> GivesKind(links[i], kind) {
      LinkCatalogKinds(links[i], kind);
    }
  }

  /** The catalog types are always drawn from "PDF" and "book": nothing else is ever reported. */
  lemma {:induction false} CatalogOfKinds(links: seq<Link>)
    ensures CatalogOf(links) <= {Pdf, Book}
    decreases |links|
  {
    if links != [] {
      CatalogOfKinds(links[..|links| - 1]);
    }
  }

  /** A link whose catalog keyword is only in its target, with no ".pdf" and no
      viewer sign, contributes no catalog type. */
  lemma HrefOnlyKeywordAddsNothing(link: Link)
    requires !Contains(Lower(link.href), ".pdf")
    requires !ContainsAny(Lower(link.href), ViewerHrefMarkers)
    requires !ContainsAny(Lower(TextOf(link)), ViewerTextMarkers)
    requires !ContainsAny(Lower(TextOf(link)), CatalogKeywords)
    ensures LinkCatalog(link) == {}
  {
  }

  /** A link titled "電子カタログ" (electronic catalog) to a page that is not a PDF is a book. */
  lemma ElectronicCatalogTextIsBook(href: string)
    requires !Contains(Lower(href), ".pdf")
    ensures LinkCatalog(Link(href, Some("電子カタログ"))) == {Book}
  {
    var t := "電子カタログ";
    LowerFixesLowercase(t);
    assert OccursAt(t, "電子", 0);
    assert OccursAt(t, "電子カタログ", 0);
    assert Contains(t, "電子カタログ");
  }

  /** A link to a ".pdf" target that mentions a catalog is a PDF, whatever its text. */
  lemma PdfCatalogLinkIsPdf(link: Link)
    requires Contains(Lower(link.href), ".pdf") && CatalogLink(link)
    ensures LinkCatalog(link) == {Pdf}
  {
  }

  /** The catalog loop reads every link's text, so it stops, raising, at the
      first link without one: the number of links it gets through. */
  function ScannedLinks(links: seq<Link>): (n: nat)
    ensures n <= |links|
    ensures forall k | 0 <= k < n :: links[k].text.Some?
    ensures n < |links| ==> links[n].text.None?
  {
    if links == [] || links[0].text.None? then 0
    else
      var n := 1 + ScannedLinks(links[1..]);
      assert forall k | 1 <= k < n :: links[k] == links[1..][k - 1];
      n
  }

  // ---------------------------------------------------------------------------
  // The whole analysis

  /** What `analyze_website` returns for a URL and what the site yields. A link
      without text makes the form scan or the catalog scan raise; what was
      recorded before stays, and the error is the one remark. */
  function AnalysisOf(url: string, visit: Visit): Analysis
  {
    if Skipped(url) then NoAnalysis
    else match visit
      case NavigationFailed(message) => NoAnalysis.(remarks := [ErrorRemark(message)])
      case ContentFailed(links, message) => NoAnalysis.(sns := SnsOf(links), remarks := [ErrorRemark(message)])
      case Loaded(links, content) =>
        if FormRaises(url, content, links) then
          NoAnalysis.(sns := SnsOf(links), remarks := [ErrorRemark(NoTextError)])
        else
          var n := ScannedLinks(links);
          Analysis(SnsOf(links), FormDetected(url, content, links), CatalogOf(links[..n]),
                   if n < |links| then [ErrorRemark(NoTextError)] else [])
  }

  /** A skipped URL gives the default analysis, whatever the site would have shown. */
  lemma SkippedIsDefault(url: string, visit: Visit)
    requires Skipped(url)
    ensures AnalysisOf(url, visit) == NoAnalysis
  {
  }

  /** A site that could not be opened or read carries exactly one remark, the
      truncated message, and keeps what had been recorded before the failure:
      the platforms when the links had been read, nothing else. */
  lemma FailureLeavesOneRemark(url: string, visit: Visit)
    requires !Skipped(url) && !visit.Loaded?
    ensures AnalysisOf(url, visit).remarks == [ErrorRemark(visit.message)]
    ensures !AnalysisOf(url, visit).hasForm && AnalysisOf(url, visit).catalogTypes == {}
    ensures AnalysisOf(url, visit).sns == if visit.ContentFailed? then SnsOf(visit.links) else {}
  {
  }

  /** A loaded page ends with a remark exactly when one of its links has no text. */
  lemma LoadedRemarkIffTextMissing(url: string, links: seq<Link>, content: string)
    requires !Skipped(url)
    ensures AnalysisOf(url, Loaded(links, content)).remarks == [] <==> forall l | l in links :: l.text.Some?
    ensures AnalysisOf(url, Loaded(links, content)).remarks in {[], [ErrorRemark(NoTextError)]}
  {
    if forall l | l in links :: l.text.Some? {
      if !ContainsAny(Lower(url), FormKeywords) && !Contains(Lower(content), "<form") {
        FormScanWithText(links);
      }
    } else {
      var l :| l in links && l.text.None?;
      var k :| 0 <= k < |links| && links[k] == l;
    }
  }

  /** A link without text stops the analysis without undoing anything: the
      platforms of all links and the form answer stay; the catalog types of the
      links before the first one without text stay, unless the form scan had
      already raised. */
  lemma ScanFailureKeepsEarlierFields(url: string, links: seq<Link>, content: string)
    requires !Skipped(url) && exists l | l in links :: l.text.None?
    ensures var a := AnalysisOf(url, Loaded(links, content));
      a.remarks == [ErrorRemark(NoTextError)] && a.sns == SnsOf(links) &&
      a.hasForm == FormDetected(url, content, links) &&
      a.catalogTypes == (if FormRaises(url, content, links) then {} else CatalogOf(links[..ScannedLinks(links)])) &&
      a.catalogTypes <= CatalogOf(links)
  {
    var l :| l in links && l.text.None?;
    var k :| 0 <= k < |links| && links[k] == l;
    var n := ScannedLinks(links);
    forall kind | kind in CatalogOf(links[..n]) ensures kind in CatalogOf(links) {
      CatalogOfExactly(links[..n], kind);
      CatalogOfExactly(links, kind);
      var i :| 0 <= i < n && GivesKind(links[..n][i], kind);
      assert links[..n][i] == links[i];
    }
  }

  /** On a contact page, a link without text still leaves the form found, with the error as remark. */
  lemma ContactPageWithUntextedLink(content: string, href: string)
    ensures var a := AnalysisOf("https://example.jp/contact-us", Loaded([Link(href, None)], content));
      a.hasForm && a.remarks == [ErrorRemark(NoTextError)]
  {
    ContactUsUrl(content, [Link(href, None)]);
  }

  /** A completed analysis has no remarks and only "PDF"/"book" catalog types. */
  lemma LoadedAnalysisClean(url: string, links: seq<Link>, content: string)
    requires !Skipped(url) && forall l | l in links :: l.text.Some?
    ensures AnalysisOf(url, Loaded(links, content)).remarks == []
    ensures AnalysisOf(url, Loaded(links, content)).catalogTypes == CatalogOf(links) <= {Pdf, Book}
  {
    LoadedRemarkIffTextMissing(url, links, content);
    CatalogOfKinds(links);
    assert links[..|links|] == links;
  }

  /** Every analysis, skipped, failed or complete, reports catalog types drawn
      from "PDF" and "book" and at most one remark. */
  lemma AnalysisWellFormed(url: string, visit: Visit)
    ensures AnalysisOf(url, visit).catalogTypes <= {Pdf, Book}
    ensures |AnalysisOf(url, visit).remarks| <= 1
  {
    if !Skipped(url) && visit.Loaded? {
      CatalogOfKinds(visit.links[..ScannedLinks(visit.links)]);
    }
  }

  // ---------------------------------------------------------------------------
  // The procedure, step by step as the source runs it

  /** The platforms named by the first `j` table entries that occur in `href`. */
  function PlatformsBefore(href: string, j: nat): set<string>
    requires j <= |SnsDomains|
  {
    set k | 0 <= k < j && Contains(href, SnsDomains[k].0) :: SnsDomains[k].1
  }

  lemma PlatformsBeforeStep(href: string, j: nat)
    requires j < |SnsDomains|
    ensures PlatformsBefore(href, j + 1) ==
            PlatformsBefore(href, j) + (if Contains(href, SnsDomains[j].0) then {SnsDomains[j].1} else {})
  {
  }

  /** The SNS loop (lead_collector.py:49-55): every link against every domain. */
  method DetectSns(links: seq<Link>) returns (found: set<string>)
    ensures found == SnsOf(links)
  {
    found := {};
    for i := 0 to |links|
      invariant found == SnsOf(links[..i])
    {
      var href := links[i].href;
      for j := 0 to |SnsDomains|
        invariant found == SnsOf(links[..i]) + PlatformsBefore(href, j)
      {
        PlatformsBeforeStep(href, j);
        var (domain, name) := SnsDomains[j];
        if Contains(href, domain) && name !in found {
          found := found + {name};
        }
      }
      assert PlatformsBefore(href, |SnsDomains|) == HrefPlatforms(href);
      assert links[..i + 1][..i] == links[..i];
    }
    assert links[..|links|] == links;
  }

  /** The contact-form cascade (lead_collector.py:59-70), with the early `break`
      of the link scan; `raised` when the scan met a link whose text it could not
      lowercase. */
  method DetectForm(url: string, content: string, links: seq<Link>) returns (hasForm: bool, raised: bool)
    ensures hasForm == FormDetected(url, content, links)
    ensures raised == FormRaises(url, content, links)
  {
    hasForm, raised := false, false;
    if ContainsAny(Lower(url), FormKeywords) {
      hasForm := true;
    } else if Contains(Lower(content), "<form") {
      if Contains(Lower(content), "submit") || Contains(content, "送信") {
        hasForm := true;
      }
    } else {
      var i := 0;
      while i < |links|
        invariant 0 <= i <= |links|
        invariant !hasForm && !raised
        invariant forall k | 0 <= k < i :: LinkFormCheck(links[k]) == Miss
      {
        var link := links[i];
        if link.text.None? {
          if Contains(Lower(link.href), FormKeywords[0]) {
            hasForm := true;
            FormScanFirst(links, i);
            break;
          }
          raised := true;
          FormScanFirst(links, i);
          break;
        }
        if LinkMentionsForm(link) {
          hasForm := true;
          FormScanFirst(links, i);
          break;
        }
        i := i + 1;
      }
      if !hasForm && !raised {
        FormScanAllMiss(links);
      }
    }
  }

  /** The catalog loop (lead_collector.py:73-94), adding to the type set link by
      link; it stops, `raised`, at the first link whose text it cannot lowercase,
      keeping the types found so far. */
  method DetectCatalog(links: seq<Link>) returns (types: set<string>, raised: bool)
    ensures raised <==> ScannedLinks(links) < |links|
    ensures types == CatalogOf(links[..ScannedLinks(links)])
  {
    types, raised := {}, false;
    var i := 0;
    while i < |links|
      invariant 0 <= i <= |links|
      invariant forall k | 0 <= k < i :: links[k].text.Some?
      invariant types == CatalogOf(links[..i])
    {
      if links[i].text.None? {
        raised := true;
        break;
      }
      var h := Lower(links[i].href);
      var t := Lower(links[i].text.value);
      if EitherContainsAny(h, t, CatalogKeywords) {
        if Contains(h, ".pdf") {
          types := types + {Pdf};
        } else if ContainsAny(h, ViewerHrefMarkers) || ContainsAny(t, ViewerTextMarkers) {
          types := types + {Book};
        } else if ContainsAny(t, CatalogKeywords) {
          types := types + {Book};
        }
      }
      assert links[..i + 1][..i] == links[..i];
      i := i + 1;
    }
    assert i == ScannedLinks(links);
  }

  /** `analyze_website`: fills in the result field by field and stops at the
      first failure, keeping what was filled in so far. */
  method AnalyzeWebsite(url: string, visit: Visit) returns (info: Analysis)
    ensures info == AnalysisOf(url, visit)
  {
    info := NoAnalysis;
    if url == "" || url == "なし" {
      return;
    }
    match visit {
      case NavigationFailed(message) =>
        info := info.(remarks := info.remarks + [ErrorRemark(message)]);
      case ContentFailed(links, message) =>
        var found := DetectSns(links);
        info := info.(sns := found);
        info := info.(remarks := info.remarks + [ErrorRemark(message)]);
      case Loaded(links, content) =>
        var found := DetectSns(links);
        info := info.(sns := found);
        var hasForm, formRaised := DetectForm(url, content, links);
        info := info.(hasForm := hasForm);
        if formRaised {
          info := info.(remarks := info.remarks + [ErrorRemark(NoTextError)]);
          return;
        }
        var types, catalogRaised := DetectCatalog(links);
        info := info.(catalogTypes := types);
        if catalogRaised {
          info := info.(remarks := info.remarks + [ErrorRemark(NoTextError)]);
        }
    }
  }
}
