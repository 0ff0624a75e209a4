/** The collection orchestrator `collect_leads` (system/03_scripts/lead_collector.py:101-215).
    It searches the directory, scrolls the result list a bounded number of times,
    then processes the first `min(found, max_results)` entries one at a time: read
    the entry's name and detail fields, analyze the website when there is one,
    append the assembled record. A failure inside one entry skips that entry only.
    Every step is announced to the caller's progress callback, modelled here as the
    sequence of events the run emits. The browser is not modelled: `Directory`
    says what the directory shows, `Candidate` what happens when one entry is opened. */
module Collector {
  import opened Text
  import opened Analyzer
  import opened Records

  /** What processing one result entry runs into. */
  datatype Candidate =
      /** Reading the entry's `aria-label` raised, before anything was announced. */
    | LabelUnreadable(message: string)
      /** Clicking the entry, waiting, or reading a detail field raised. */
    | PanelFailed(name: string, message: string)
      /** The detail panel was read; `site` is what visiting its website yields. */
    | Opened(name: string, details: Details, site: Visit)

  /** The phase a progress event announces (the source phrases each as a line of text). */
  datatype Status =
    | Launching
    | Searching(keyword: string)
    | NoResults
    | LoadingList
    | CandidatesFound(count: nat)
    | FetchingBasics(name: string)
    | AnalyzingSite(name: string)
    | ItemSkipped(reason: string)
    | Completed

  /** One call `progress_callback(current, total, status)`. */
  datatype ProgressEvent = ProgressEvent(current: nat, total: nat, status: Status)

  /** The directory's answer to the search: whether any result entry appears within
      the initial wait, and the entries rendered after `k` scroll actions. */
  datatype Directory = Directory(resultsAppear: bool, listing: nat -> seq<Candidate>)

  /** The outcome of a run: the lead records and the progress events, in order. */
  datatype Run = Run(leads: seq<LeadRecord>, events: seq<ProgressEvent>)

  const MaxScrolls: nat := 15
  /** Length to which an item's exception message is cut in its progress event. */
  const ReasonLength: nat := 20

  function Min(a: nat, b: nat): nat
  {
    if a <= b then a else b
  }

  // ---------------------------------------------------------------------------
  // Scrolling the result list

  /** The number of scroll actions performed when counting starts after `k` of them:
      scrolling stops once `maxResults` entries are rendered or after 15 actions. */
  function ScrollsFrom(listing: nat -> seq<Candidate>, maxResults: nat, k: nat): nat
    requires k <= MaxScrolls
    decreases MaxScrolls - k
  {
    if |listing(k)| >= maxResults || k == MaxScrolls then k else ScrollsFrom(listing, maxResults, k + 1)
  }

  function ScrollsNeeded(listing: nat -> seq<Candidate>, maxResults: nat): nat
  {
    ScrollsFrom(listing, maxResults, 0)
  }

  /** The scroll count is the first count at which enough entries are rendered,
      capped at 15: no other number of scrolls fits that description. */
  lemma {:induction false} ScrollsFromIsFirst(listing: nat -> seq<Candidate>, maxResults: nat, k: nat, n: nat)
    requires k <= n <= MaxScrolls
    requires forall j | k <= j < n :: |listing(j)| < maxResults
    requires n < MaxScrolls ==> |listing(n)| >= maxResults
    ensures ScrollsFrom(listing, maxResults, k) == n
    decreases n - k
  {
    if k < n {
      ScrollsFromIsFirst(listing, maxResults, k + 1, n);
    }
  }

  /** The scroll count never exceeds 15, and scrolling stops early only when
      enough entries are rendered. */
  lemma {:induction false} ScrollsFromBounds(listing: nat -> seq<Candidate>, maxResults: nat, k: nat)
    requires k <= MaxScrolls
    ensures k <= ScrollsFrom(listing, maxResults, k) <= MaxScrolls
    ensures forall j | k <= j < ScrollsFrom(listing, maxResults, k) :: |listing(j)| < maxResults
    ensures ScrollsFrom(listing, maxResults, k) < MaxScrolls ==> |listing(ScrollsFrom(listing, maxResults, k))| >= maxResults
    decreases MaxScrolls - k
  {
    if !(|listing(k)| >= maxResults || k == MaxScrolls) {
      ScrollsFromBounds(listing, maxResults, k + 1);
    }
  }

  /** The scroll loop (lead_collector.py:137-145): count the rendered entries, and
      while there are fewer than `maxResults` and fewer than 15 scrolls were made,
      scroll once more. */
  method ScrollResults(listing: nat -> seq<Candidate>, maxResults: nat) returns (attempts: nat)
    ensures attempts <= MaxScrolls
    ensures forall k | 0 <= k < attempts :: |listing(k)| < maxResults
    ensures attempts < MaxScrolls ==> |listing(attempts)| >= maxResults
  {
    attempts := 0;
    while |listing(attempts)| < maxResults && attempts < MaxScrolls
      invariant attempts <= MaxScrolls
      invariant forall k | 0 <= k < attempts :: |listing(k)| < maxResults
      decreases MaxScrolls - attempts
    {
      attempts := attempts + 1;
    }
  }

  // ---------------------------------------------------------------------------
  // One entry

  /** The analysis used for an entry: the website's when it has one, the
      default when its website reads "なし". */
  function SiteAnalysis(d: Details, site: Visit): Analysis
  {
    if WebsiteOf(d) != NoWebsite then AnalysisOf(WebsiteOf(d), site) else NoAnalysis
  }

  /** The record an entry contributes, if any. */
  function ItemLead(c: Candidate, date: string): Option<LeadRecord>
  {
    match c
    case Opened(name, d, site) => Some(AssembleLead(name, d, SiteAnalysis(d, site), date))
    case _ => None
  }

  /** The progress events of entry number `i` (counting from 1) of `total`. */
  function ItemEvents(i: nat, total: nat, c: Candidate): seq<ProgressEvent>
  {
    match c
    case LabelUnreadable(message) =>
      [ProgressEvent(i, total, ItemSkipped(Truncate(message, ReasonLength)))]
    case PanelFailed(name, message) =>
      [ProgressEvent(i, total, FetchingBasics(name)), ProgressEvent(i, total, ItemSkipped(Truncate(message, ReasonLength)))]
    case Opened(name, d, _) =>
      [ProgressEvent(i, total, FetchingBasics(name))] +
      (if WebsiteOf(d) != NoWebsite then [ProgressEvent(i, total, AnalyzingSite(name))] else [])
  }

  /** `[y for x in xs if (y := f(x)) is not None]`: what `f` gives for each
      element, in order, with the missing results left out. */
  function Present<A, B>(xs: seq<A>, f: A -> Option<B>): seq<B>
  {
    if xs == [] then [] else Present(xs[..|xs| - 1], f) + Kept(f(xs[|xs| - 1]))
  }

  /** A result as a list of zero or one elements. */
  function Kept<B>(o: Option<B>): seq<B>
  {
    match o case Some(y) => [y] case None => []
  }

  function LeadOf(date: string): Candidate -> Option<LeadRecord>
  {
    c => ItemLead(c, date)
  }

  /** The records of a list of entries, in the entries' order. */
  function Harvest(cs: seq<Candidate>, date: string): seq<LeadRecord>
  {
    Present(cs, LeadOf(date))
  }

  /** The progress events of a list of entries, numbered from 1. */
  function ItemsEvents(cs: seq<Candidate>, total: nat): seq<ProgressEvent>
  {
    if cs == [] then [] else ItemsEvents(cs[..|cs| - 1], total) + ItemEvents(|cs|, total, cs[|cs| - 1])
  }

  lemma {:induction false} PresentBound<A, B>(xs: seq<A>, f: A -> Option<B>)
    ensures |Present(xs, f)| <= |xs|
    decreases |xs|
  {
    if xs != [] {
      PresentBound(xs[..|xs| - 1], f);
    }
  }

  lemma {:induction false} PresentAppend<A, B>(a: seq<A>, b: seq<A>, f: A -> Option<B>)
    ensures Present(a + b, f) == Present(a, f) + Present(b, f)
    decreases |b|
  {
    if b != [] {
      var b' := b[..|b| - 1];
      assert (a + b)[..|a + b| - 1] == a + b';
      assert (a + b)[|a + b| - 1] == b[|b| - 1];
      PresentAppend(a, b', f);
    } else {
      assert a + b == a;
    }
  }

  lemma {:induction false} PresentAllSome<A, B>(xs: seq<A>, f: A -> Option<B>)
    requires forall i | 0 <= i < |xs| :: f(xs[i]).Some?
    ensures |Present(xs, f)| == |xs|
    ensures forall i | 0 <= i < |xs| :: Some(Present(xs, f)[i]) == f(xs[i])
    decreases |xs|
  {
    if xs != [] {
      var init := xs[..|xs| - 1];
      assert forall i | 0 <= i < |init| :: init[i] == xs[i];
      PresentAllSome(init, f);
      assert Present(xs, f) == Present(init, f) + [f(xs[|xs| - 1]).value];
    }
  }

  /** No entry contributes more than one record. */
  lemma {:induction false} HarvestBound(cs: seq<Candidate>, date: string)
    ensures |Harvest(cs, date)| <= |cs|
  {
    PresentBound(cs, LeadOf(date));
  }

  /** Records of consecutive stretches of entries follow one another: the
      output keeps the entries' order. */
  lemma {:induction false} HarvestAppend(a: seq<Candidate>, b: seq<Candidate>, date: string)
    ensures Harvest(a + b, date) == Harvest(a, date) + Harvest(b, date)
  {
    PresentAppend(a, b, LeadOf(date));
  }

  /** Processing one more entry appends its record, if it has one. */
  lemma HarvestStep(cs: seq<Candidate>, i: nat, date: string)
    requires i < |cs|
    ensures Harvest(cs[..i + 1], date) == Harvest(cs[..i], date) + Kept(ItemLead(cs[i], date))
  {
    assert cs[..i + 1][..i] == cs[..i] && cs[..i + 1][i] == cs[i];
  }

  /** Processing one more entry appends its events. */
  lemma ItemsEventsStep(cs: seq<Candidate>, i: nat, total: nat)
    requires i < |cs|
    ensures ItemsEvents(cs[..i + 1], total) == ItemsEvents(cs[..i], total) + ItemEvents(i + 1, total, cs[i])
  {
    assert cs[..i + 1][..i] == cs[..i] && cs[..i + 1][i] == cs[i];
  }

  /** A failed entry is left out and nothing else is: the records are those
      of the entries before it followed by those of the entries after it. */
  lemma FailedEntryOnlySkipsItself(cs: seq<Candidate>, i: nat, date: string)
    requires i < |cs| && !cs[i].Opened?
    ensures Harvest(cs, date) == Harvest(cs[..i], date) + Harvest(cs[i + 1..], date)
  {
    var before, here, after := cs[..i], [cs[i]], cs[i + 1..];
    assert cs == before + (here + after);
    HarvestAppend(before, here + after, date);
    HarvestAppend(here, after, date);
    HarvestStep(here, 0, date);
    assert here[..1] == here && here[..0] == [];
    assert Harvest(here + after, date) == Harvest(after, date);
  }

  /** When every entry opens, entry `i` becomes record `i`. */
  lemma {:induction false} HarvestAllOpened(cs: seq<Candidate>, date: string)
    requires forall i | 0 <= i < |cs| :: cs[i].Opened?
    ensures |Harvest(cs, date)| == |cs|
    ensures forall i | 0 <= i < |cs| :: Some(Harvest(cs, date)[i]) == ItemLead(cs[i], date)
  {
    var f := LeadOf(date);
    assert forall i | 0 <= i < |cs| :: f(cs[i]) == ItemLead(cs[i], date);
    PresentAllSome(cs, f);
  }

  /** The events of the first entries are a prefix of the events of all of them. */
  lemma {:induction false} ItemsEventsPrefix(cs: seq<Candidate>, total: nat, n: nat)
    requires n <= |cs|
    ensures ItemsEvents(cs[..n], total) <= ItemsEvents(cs, total)
    decreases |cs| - n
  {
    if n < |cs| {
      var init := cs[..|cs| - 1];
      assert init[..n] == cs[..n];
      ItemsEventsPrefix(init, total, n);
    } else {
      assert cs[..n] == cs;
    }
  }

  /** A failed entry `i` (counting from 0) is reported as event `(i + 1, total, reason)`,
      with its exception message cut to 20 characters, as the last of its events. */
  lemma FailureReported(cs: seq<Candidate>, total: nat, i: nat)
    requires i < |cs| && !cs[i].Opened?
    ensures ProgressEvent(i + 1, total, ItemSkipped(Truncate(cs[i].message, ReasonLength))) in ItemsEvents(cs, total)
    ensures var mine := ItemEvents(i + 1, total, cs[i]);
      mine[|mine| - 1] == ProgressEvent(i + 1, total, ItemSkipped(Truncate(cs[i].message, ReasonLength)))
  {
    ItemsEventsPrefix(cs, total, i + 1);
    var upTo := cs[..i + 1];
    assert upTo[..|upTo| - 1] == cs[..i];
    var mine := ItemEvents(i + 1, total, cs[i]);
    assert ItemsEvents(upTo, total) == ItemsEvents(cs[..i], total) + mine;
    assert mine[|mine| - 1] in ItemsEvents(upTo, total);
  }

  // ---------------------------------------------------------------------------
  // The whole run

  function Opening(keyword: string, maxResults: nat): seq<ProgressEvent>
  {
    [ProgressEvent(0, maxResults, Launching), ProgressEvent(0, maxResults, Searching(keyword))]
  }

  /** The entries that get processed: the rendered ones after scrolling, cut to `maxResults`. */
  function Processed(dir: Directory, maxResults: nat): seq<Candidate>
  {
    var articles := dir.listing(ScrollsNeeded(dir.listing, maxResults));
    articles[..Min(|articles|, maxResults)]
  }

  /** What `collect_leads` returns and reports for a keyword and a directory. */
  function Collect(keyword: string, maxResults: nat, dir: Directory, date: string): Run
  {
    if !dir.resultsAppear then
      Run([], Opening(keyword, maxResults) + [ProgressEvent(0, maxResults, NoResults)])
    else
      Listed(keyword, maxResults, Processed(dir, maxResults), date)
  }

  /** A run whose search showed results, given the entries that get processed. */
  function Listed(keyword: string, maxResults: nat, items: seq<Candidate>, date: string): Run
  {
    var total := |items|;
    var leads := Harvest(items, date);
    Run(leads,
        Opening(keyword, maxResults) +
        [ProgressEvent(0, maxResults, LoadingList), ProgressEvent(0, total, CandidatesFound(total))] +
        ItemsEvents(items, total) +
        [ProgressEvent(|leads|, |leads|, Completed)])
  }

  /** The run returns at most `maxResults` records and at most one per entry the
      directory rendered, and it scrolls at most 15 times. */
  lemma CollectBounds(keyword: string, maxResults: nat, dir: Directory, date: string)
    ensures |Collect(keyword, maxResults, dir, date).leads| <= maxResults
    ensures dir.resultsAppear ==>
      |Collect(keyword, maxResults, dir, date).leads| <= |dir.listing(ScrollsNeeded(dir.listing, maxResults))|
    ensures ScrollsNeeded(dir.listing, maxResults) <= MaxScrolls
  {
    ScrollsFromBounds(dir.listing, maxResults, 0);
    if dir.resultsAppear {
      HarvestBound(Processed(dir, maxResults), date);
    }
  }

  /** A completed run ends with the event `(n, n, completed)` for its `n` records;
      a search without results returns nothing and never reports completion. */
  lemma CollectFinalEvent(keyword: string, maxResults: nat, dir: Directory, date: string)
    ensures var run := Collect(keyword, maxResults, dir, date);
      |run.events| > 0 &&
      (dir.resultsAppear ==>
         run.events[|run.events| - 1] == ProgressEvent(|run.leads|, |run.leads|, Completed)) &&
      (!dir.resultsAppear ==>
         run.leads == [] && run.events[|run.events| - 1].status == NoResults &&
         forall e | e in run.events :: e.status != Completed)
  {
  }

  /** Within the events of the entries, `current` counts entries from 1 and
      never passes `total` as long as there are at most `total` entries. */
  lemma {:induction false} ItemsEventsWithinTotal(cs: seq<Candidate>, total: nat)
    requires |cs| <= total
    ensures forall e | e in ItemsEvents(cs, total) :: 1 <= e.current <= total && e.total == total
    decreases |cs|
  {
    if cs != [] {
      ItemsEventsWithinTotal(cs[..|cs| - 1], total);
    }
  }

  /** Every progress event of a run has `current <= total`, so every bar the
      caller draws from one is a whole bar. */
  lemma EventsWithinTotal(keyword: string, maxResults: nat, dir: Directory, date: string)
    ensures forall e | e in Collect(keyword, maxResults, dir, date).events :: e.current <= e.total
  {
    if dir.resultsAppear {
      ListedEventsWithinTotal(keyword, maxResults, Processed(dir, maxResults), date);
    }
  }

  lemma ListedEventsWithinTotal(keyword: string, maxResults: nat, items: seq<Candidate>, date: string)
    ensures forall e | e in Listed(keyword, maxResults, items, date).events :: e.current <= e.total
  {
    var leads := Harvest(items, date);
    var announced := Opening(keyword, maxResults) +
      [ProgressEvent(0, maxResults, LoadingList), ProgressEvent(0, |items|, CandidatesFound(|items|))];
    var perEntry := ItemsEvents(items, |items|);
    var closing := [ProgressEvent(|leads|, |leads|, Completed)];
    ListedRun(keyword, maxResults, items, date);
    assert Listed(keyword, maxResults, items, date).events == announced + perEntry + closing;
    ItemsEventsWithinTotal(items, |items|);
    forall e: ProgressEvent | e in announced + perEntry + closing ensures e.current <= e.total {
      if e in perEntry {
      } else if e in closing {
      } else {
        assert e in announced;
      }
    }
  }

  /** Two entries on a directory asked for three: after 15 fruitless scrolls both
      are processed, both become records, and the run ends with `(2, 2, completed)`. */
  lemma TwoEntriesScenario(first: Candidate, second: Candidate, date: string)
    requires first.Opened? && second.Opened?
    ensures var run := Collect("Kyoto printing", 3, Directory(true, k => [first, second]), date);
      |run.leads| == 2 && run.events[|run.events| - 1] == ProgressEvent(2, 2, Completed)
  {
    var dir := Directory(true, k => [first, second]);
    ScrollsFromBounds(dir.listing, 3, 0);
    assert Processed(dir, 3) == [first, second];
    HarvestAllOpened([first, second], date);
  }

  /** The body of the entry loop (lead_collector.py:155-208) for entry number
      `i` (counting from 1): its events, and its record unless it failed. */
  method ProcessEntry(i: nat, total: nat, c: Candidate, date: string)
      returns (lead: Option<LeadRecord>, events: seq<ProgressEvent>)
    ensures lead == ItemLead(c, date)
    ensures events == ItemEvents(i, total, c)
  {
    match c {
      case LabelUnreadable(message) =>
        lead := None;
        events := [ProgressEvent(i, total, ItemSkipped(Truncate(message, ReasonLength)))];
      case PanelFailed(name, message) =>
        lead := None;
        events := [ProgressEvent(i, total, FetchingBasics(name))];
        events := events + [ProgressEvent(i, total, ItemSkipped(Truncate(message, ReasonLength)))];
      case Opened(name, d, site) =>
        events := [ProgressEvent(i, total, FetchingBasics(name))];
        var info := NoAnalysis;
        var website := WebsiteOf(d);
        if website != NoWebsite {
          events := events + [ProgressEvent(i, total, AnalyzingSite(name))];
          info := AnalyzeWebsite(website, site);
        }
        lead := Some(AssembleLead(name, d, info, date));
    }
  }

  /** The entry loop (lead_collector.py:154-208): entries in order, each one's
      events appended, each one's record appended unless it failed. */
  method ProcessEntries(items: seq<Candidate>, total: nat, date: string)
      returns (leads: seq<LeadRecord>, events: seq<ProgressEvent>)
    ensures leads == Harvest(items, date)
    ensures events == ItemsEvents(items, total)
  {
    leads, events := [], [];
    for i := 0 to |items|
      invariant leads == Harvest(items[..i], date)
      invariant events == ItemsEvents(items[..i], total)
    {
      var lead, itemEvents := ProcessEntry(i + 1, total, items[i], date);
      HarvestStep(items, i, date);
      ItemsEventsStep(items, i, total);
      events := events + itemEvents;
      if lead.Some? {
        leads := leads + [lead.value];
      }
    }
    assert items[..|items|] == items;
  }

  /** `collect_leads` as the source runs it: announce, search, scroll, process the
      entries, announce completion. */
  method CollectLeads(keyword: string, maxResults: nat, dir: Directory, date: string)
      returns (leads: seq<LeadRecord>, events: seq<ProgressEvent>)
    ensures Run(leads, events) == Collect(keyword, maxResults, dir, date)
    ensures |leads| <= maxResults
  {
    leads := [];
    events := [ProgressEvent(0, maxResults, Launching)];
    events := events + [ProgressEvent(0, maxResults, Searching(keyword))];
    assert events == Opening(keyword, maxResults);
    if !dir.resultsAppear {
      events := events + [ProgressEvent(0, maxResults, NoResults)];
      assert Run(leads, events) == Run([], Opening(keyword, maxResults) + [ProgressEvent(0, maxResults, NoResults)]);
      return;
    }
    events := events + [ProgressEvent(0, maxResults, LoadingList)];
    var attempts := ScrollResults(dir.listing, maxResults);
    ScrollsFromIsFirst(dir.listing, maxResults, 0, attempts);
    assert attempts == ScrollsNeeded(dir.listing, maxResults);
    var articles := dir.listing(attempts);
    var total := Min(|articles|, maxResults);
    events := events + [ProgressEvent(0, total, CandidatesFound(total))];
    var items := articles[..total];
    assert items == Processed(dir, maxResults);
    ghost var opening := events;
    assert opening == Opening(keyword, maxResults) +
      [ProgressEvent(0, maxResults, LoadingList), ProgressEvent(0, |items|, CandidatesFound(|items|))];
    assert Collect(keyword, maxResults, dir, date) == Listed(keyword, maxResults, items, date);
    var itemEvents;
    leads, itemEvents := ProcessEntries(items, total, date);
    events := events + itemEvents;
    events := events + [ProgressEvent(|leads|, |leads|, Completed)];
    assert events == opening + itemEvents + [ProgressEvent(|leads|, |leads|, Completed)];
    ListedRun(keyword, maxResults, items, date);
    HarvestBound(items, date);
  }

  /** The pieces the entry loop and the announcements produce make up `Listed`. */
  lemma ListedRun(keyword: string, maxResults: nat, items: seq<Candidate>, date: string)
    ensures var leads := Harvest(items, date);
      Run(leads,
          Opening(keyword, maxResults) +
          [ProgressEvent(0, maxResults, LoadingList), ProgressEvent(0, |items|, CandidatesFound(|items|))] +
          ItemsEvents(items, |items|) + [ProgressEvent(|leads|, |leads|, Completed)]) ==
      Listed(keyword, maxResults, items, date)
  {
  }
}
