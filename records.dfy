/** Assembly of one lead record (system/03_scripts/lead_collector.py:165-204): the
    detail fields read from the directory's panel and the website analysis become the
    display strings of one row, with explicit sentinels where something is missing:
    "不明" (unknown), "なし" (none), "なし/不明" (none or unknown), "あり" (present). */
module Records {
  import opened Text
  import opened Analyzer

  /** What the detail panel showed for one candidate; `None` where the control
      for the field was not found on the panel. */
  datatype Details = Details(industry: Option<string>, address: Option<string>, phone: Option<string>, website: Option<string>)

  /** One row of the result: 企業名, 業種, 住所, 電話番号, Webサイト, 問合せフォーム,
      SNS, Webカタログ, 備考, 収集日. */
  datatype LeadRecord = LeadRecord(
    company: string,
    industry: string,
    address: string,
    phone: string,
    website: string,
    contactForm: string,
    sns: string,
    catalog: string,
    remarks: string,
    collectedOn: string)

  const Unknown := "不明"
  const NoWebsite := "なし"
  /** "なし": the SNS cell when no platform was found. */
  const NoneSentinel := "なし"
  const NoneOrUnknown := "なし/不明"
  const Present := "あり"
  const AddressLabel := "住所: "
  const PhoneLabel := "電話番号: "

  function ValueOr(field: Option<string>, sentinel: string): (r: string)
    ensures field.None? ==> r == sentinel
    ensures field.Some? ==> r == field.value
  {
    match field
    case None => sentinel
    case Some(v) => v
  }

  /** The website as the record shows it, and as the orchestrator tests it. */
  function WebsiteOf(d: Details): string
  {
    ValueOr(d.website, NoWebsite)
  }

  /** Address and phone: the sentinel when the control is missing, then the
      screen-reader prefix removed and surrounding whitespace stripped. */
  function CleanField(raw: Option<string>, prefix: string): (r: string)
    requires prefix != []
    ensures r == [] || (!IsSpace(r[0]) && !IsSpace(r[|r| - 1]))
    ensures |r| <= |ValueOr(raw, Unknown)|
  {
    Strip(RemoveAll(ValueOr(raw, Unknown), prefix))
  }

  /** A missing address or phone reads "不明". */
  lemma CleanFieldMissing(prefix: string)
    requires |prefix| > 2
    ensures CleanField(None, prefix) == Unknown
  {
    assert Unknown[0] == '不' && Unknown[1] == '明';
    StripPadded([], Unknown, []);
    assert [] + Unknown + [] == Unknown;
  }

  /** A labelled value loses exactly its prefix and keeps the value itself. */
  lemma CleanFieldLabelled(prefix: string, v: string)
    requires prefix != [] && !Contains(v, prefix)
    requires v == [] || (!IsSpace(v[0]) && !IsSpace(v[|v| - 1]))
    ensures CleanField(Some(prefix + v), prefix) == v
  {
    RemoveAllLabel(prefix, v);
    StripPadded([], v, []);
    assert [] + v + [] == v;
  }

  /** The elements of `xs` that are in `keep`, in the order of `xs`. */
  function Filter(xs: seq<string>, keep: set<string>): seq<string>
  {
    if xs == [] then [] else (if xs[0] in keep then [xs[0]] else []) + Filter(xs[1..], keep)
  }

  predicate Distinct(xs: seq<string>)
  {
    forall i, j | 0 <= i < j < |xs| :: xs[i] != xs[j]
  }

  /** Without repetitions, the head is not in the tail and the tail has none either. */
  lemma DistinctTail(xs: seq<string>)
    requires xs != [] && Distinct(xs)
    ensures Distinct(xs[1..]) && xs[0] !in xs[1..]
  {
    forall i, j | 0 <= i < j < |xs[1..]| ensures xs[1..][i] != xs[1..][j] {
      assert xs[1..][i] == xs[i + 1] && xs[1..][j] == xs[j + 1];
    }
    forall k | 0 <= k < |xs[1..]| ensures xs[1..][k] != xs[0] {
      assert xs[1..][k] == xs[k + 1];
    }
  }

  /** `xs` is `ys` with some elements left out: the elements of `xs` occur in
      `ys` in the same order. */
  predicate Subsequence(xs: seq<string>, ys: seq<string>)
    decreases |ys|
  {
    xs == [] || (ys != [] && (Subsequence(xs, ys[1..]) || (xs[0] == ys[0] && Subsequence(xs[1..], ys[1..]))))
  }

  /** Filtering keeps the order of what it keeps. */
  lemma {:induction false} FilterSubsequence(xs: seq<string>, keep: set<string>)
    ensures Subsequence(Filter(xs, keep), xs)
    decreases |xs|
  {
    if xs != [] {
      FilterSubsequence(xs[1..], keep);
      var f := Filter(xs, keep);
      if xs[0] in keep {
        assert f[0] == xs[0] && f[1..] == Filter(xs[1..], keep);
      } else {
        assert f == Filter(xs[1..], keep);
      }
    }
  }

  /** Filtering keeps exactly the kept elements and introduces no repetitions. */
  lemma {:induction false} FilterExactly(xs: seq<string>, keep: set<string>)
    ensures forall x :: x in Filter(xs, keep) <==> x in xs && x in keep
    ensures Distinct(xs) ==> Distinct(Filter(xs, keep))
    decreases |xs|
  {
    if xs != [] {
      FilterExactly(xs[1..], keep);
      if Distinct(xs) {
        DistinctTail(xs);
      }
    }
  }

  /** Python's `<` on strings: code point by code point, a proper prefix first. */
  predicate StringBelow(a: string, b: string)
  {
    exists k | 0 <= k <= |a| && k <= |b| ::
      a[..k] == b[..k] && ((k == |a| && k < |b|) || (k < |a| && k < |b| && a[k] < b[k]))
  }

  /** The catalog types in `sorted` order: "PDF" sorts before "book" because
      capital letters come before lower-case ones. */
  function SortedCatalog(types: set<string>): seq<string>
  {
    Filter([Pdf, Book], types)
  }

  lemma SortedCatalogValue(types: set<string>)
    ensures SortedCatalog(types) == (if Pdf in types then [Pdf] else []) + (if Book in types then [Book] else [])
  {
    assert [Pdf, Book][1..] == [Book];
    assert [Book][1..] == [];
    assert Filter([Book], types) == (if Book in types then [Book] else []) + Filter([], types);
    assert Filter([Pdf, Book], types) == (if Pdf in types then [Pdf] else []) + Filter([Book], types);
  }

  /** The catalog types come out each once and in ascending string order. */
  lemma SortedCatalogIsSorted(types: set<string>)
    requires types <= {Pdf, Book}
    ensures forall x :: x in SortedCatalog(types) <==> x in types
    ensures |SortedCatalog(types)| == |types|
    ensures forall i, j | 0 <= i < j < |SortedCatalog(types)| :: StringBelow(SortedCatalog(types)[i], SortedCatalog(types)[j])
  {
    assert StringBelow(Pdf, Book) by {
      assert Pdf[..0] == Book[..0];
    }
    SortedCatalogValue(types);
    if Pdf in types && Book in types {
      assert types == {Pdf, Book};
    } else if Pdf in types {
      assert types == {Pdf};
    } else if Book in types {
      assert types == {Book};
    } else {
      assert types == {};
    }
  }

  /** The Webカタログ cell: "なし/不明" for no catalog, otherwise the sorted types
      joined by ", ". */
  function CatalogDisplay(types: set<string>): (r: string)
    ensures types == {} ==> r == NoneOrUnknown
    ensures Pdf in types ==> Contains(r, Pdf)
    ensures Book in types ==> Contains(r, Book)
  {
    if types == {} then NoneOrUnknown
    else
      SortedCatalogNamesTypes(types);
      Join(SortedCatalog(types), ", ")
  }

  /** Each catalog type found is named in the joined list. */
  lemma SortedCatalogNamesTypes(types: set<string>)
    ensures Pdf in types ==> Contains(Join(SortedCatalog(types), ", "), Pdf)
    ensures Book in types ==> Contains(Join(SortedCatalog(types), ", "), Book)
  {
    var parts := SortedCatalog(types);
    SortedCatalogValue(types);
    if Pdf in types {
      JoinContainsParts(parts, ", ", 0);
    }
    if Book in types {
      JoinContainsParts(parts, ", ", |parts| - 1);
    }
  }

  /** The four possible Webカタログ cells. */
  lemma CatalogDisplayCases(types: set<string>)
    requires types <= {Pdf, Book}
    ensures types == {} <==> CatalogDisplay(types) == NoneOrUnknown
    ensures types == {Pdf} <==> CatalogDisplay(types) == "PDF"
    ensures types == {Book} <==> CatalogDisplay(types) == "book"
    ensures types == {Pdf, Book} <==> CatalogDisplay(types) == "PDF, book"
  {
    SortedCatalogValue(types);
  }

  /** The platform names in the order of the platform table. Python lists its
      set of names in an unspecified order; the model fixes the table's order. */
  function PlatformOrder(sns: set<string>): seq<string>
  {
    Filter(PlatformNames(), sns)
  }

  function PlatformNames(): (r: seq<string>)
    ensures |r| == |SnsDomains|
    ensures forall j | 0 <= j < |SnsDomains| :: r[j] == SnsDomains[j].1
  {
    seq(|SnsDomains|, j requires 0 <= j < |SnsDomains| => SnsDomains[j].1)
  }

  /** The SNS cell: "なし" when no platform was found, otherwise the platform
      names joined by ", ", each found platform named exactly once. */
  function SnsDisplay(sns: set<string>): (r: string)
    ensures sns == {} ==> r == NoneSentinel
    ensures sns != {} ==> r == Join(PlatformOrder(sns), ", ")
  {
    if sns == {} then NoneSentinel else Join(PlatformOrder(sns), ", ")
  }

  /** The platform table names each platform once. */
  lemma PlatformNamesDistinct()
    ensures Distinct(PlatformNames())
  {
  }

  /** Listing a set of known platform names in table order lists exactly that set, each once. */
  lemma PlatformOrderExactly(sns: set<string>)
    requires forall x | x in sns :: exists j | 0 <= j < |SnsDomains| :: SnsDomains[j].1 == x
    ensures forall x :: x in PlatformOrder(sns) <==> x in sns
    ensures Distinct(PlatformOrder(sns))
  {
    var names := PlatformNames();
    FilterExactly(names, sns);
    PlatformNamesDistinct();
    forall x | x in sns ensures x in names {
      var k :| 0 <= k < |SnsDomains| && SnsDomains[k].1 == x;
      assert names[k] == x;
    }
  }

  /** Every platform the analysis found is named in the SNS cell, once. */
  lemma SnsDisplayNamesAll(links: seq<Link>, name: string)
    requires name in SnsOf(links)
    ensures Contains(SnsDisplay(SnsOf(links)), name)
    ensures Distinct(PlatformOrder(SnsOf(links)))
    ensures forall x :: x in PlatformOrder(SnsOf(links)) <==> x in SnsOf(links)
    ensures SnsDisplay(SnsOf(links)) == Join(PlatformOrder(SnsOf(links)), ", ")
  {
    var sns := SnsOf(links);
    SnsOfNamesKnown(links);
    PlatformOrderExactly(sns);
    var order := PlatformOrder(sns);
    var i :| 0 <= i < |order| && order[i] == name;
    JoinContainsParts(order, ", ", i);
  }

  /** The 問合せフォーム cell. */
  function FormDisplay(hasForm: bool): (r: string)
    ensures r == Present <==> hasForm
    ensures !hasForm ==> r == NoneOrUnknown
  {
    if hasForm then Present else NoneOrUnknown
  }

  /** The record for one candidate from its name, its detail fields, the
      analysis of its website and the collection date. */
  function AssembleLead(name: string, d: Details, a: Analysis, date: string): (r: LeadRecord)
    ensures r.company == name && r.collectedOn == date
    ensures r.industry == if d.industry.Some? then d.industry.value else Unknown
    ensures r.address == CleanField(d.address, AddressLabel) && r.phone == CleanField(d.phone, PhoneLabel)
    ensures r.website == if d.website.Some? then d.website.value else NoWebsite
    ensures r.contactForm == Present <==> a.hasForm
    ensures !a.hasForm ==> r.contactForm == NoneOrUnknown
    ensures r.sns == SnsDisplay(a.sns) && r.catalog == CatalogDisplay(a.catalogTypes)
    ensures r.remarks == Join(a.remarks, " ")
  {
    LeadRecord(
      name,
      ValueOr(d.industry, Unknown),
      CleanField(d.address, AddressLabel),
      CleanField(d.phone, PhoneLabel),
      WebsiteOf(d),
      FormDisplay(a.hasForm),
      SnsDisplay(a.sns),
      CatalogDisplay(a.catalogTypes),
      Join(a.remarks, " "),
      date)
  }

  /** Missing fields show their sentinels: "不明" for industry, address and phone,
      "なし" for the website; without a website every analysis cell shows
      "none" and the remarks are empty. */
  lemma MissingFieldsShowSentinels(name: string, date: string)
    ensures var r := AssembleLead(name, Details(None, None, None, None), NoAnalysis, date);
      r.industry == Unknown && r.address == Unknown && r.phone == Unknown && r.website == NoWebsite &&
      r.contactForm == NoneOrUnknown && r.sns == NoneSentinel && r.catalog == NoneOrUnknown && r.remarks == []
  {
    CleanFieldMissing(AddressLabel);
    CleanFieldMissing(PhoneLabel);
  }

  /** The remarks cell of a failed analysis is its single error remark. */
  lemma FailedAnalysisRemark(name: string, d: Details, url: string, visit: Visit, date: string)
    requires !Skipped(url) && !visit.Loaded?
    ensures AssembleLead(name, d, AnalysisOf(url, visit), date).remarks == ErrorRemark(visit.message)
  {
  }
}
