/**
 * The aggregators (`scrape_all_websites` of the six-site and the three-site scraper):
 * run every adapter in turn with the same page cap and concatenate what they return.
 * An adapter that raises is logged and skipped; the others are unaffected.
 */
module Aggregator {
  import opened Options
  import opened Documents
  import opened Records
  import opened Paging
  import opened KeywordSites
  import opened Atsogo

  /** The adapters an aggregator can run. */
  datatype Adapter = AtsogoAdapter | KeywordAdapter(site: Site)

  /** The six adapters of the Malawi aggregator, in the order it runs them. */
  const MalawiAdapters: seq<Adapter> := [
    AtsogoAdapter, KeywordAdapter(MalawiSgw), KeywordAdapter(KnightFrank),
    KeywordAdapter(Nyumba24), KeywordAdapter(Reynolds), KeywordAdapter(Property4321)
  ]

  /** The three adapters of the multi-site aggregator, in the order it runs them. */
  const MultiAdapters: seq<Adapter> := [AtsogoAdapter, KeywordAdapter(MultiSgw), KeywordAdapter(Nyumba24)]

  /** The source name an adapter tags its records with. */
  function Name(a: Adapter): string {
    match a
    case AtsogoAdapter => "atsogo"
    case KeywordAdapter(site) => site.source
  }

  /** What the Atsogo adapter's page loop gives with the cap: every record tagged "atsogo". */
  function AtsogoRun(web: Web, cap: Option<int>, bound: nat): (c: Crawl<Record>)
    requires InlineEndsBy(web, AtsogoPage, cap, 1, bound)
    ensures c.Raised? <==> InlineCrawl(web, AtsogoPage, cap, 1, bound).Raised?
    ensures c.Done? ==> forall r :: r in c.items ==> r.source == "atsogo" && Normalised(r.listing)
  {
    AtsogoRecordsFromReadPages(web, cap, bound);
    Gather(AtsogoRecord, InlineCrawl(web, AtsogoPage, cap, 1, bound))
  }

  /** Every record of a finished Atsogo run carries the adapter's name. */
  predicate TaggedAtsogo(atsogo: Crawl<Record>) {
    atsogo.Done? ==> forall r :: r in atsogo.items ==> r.source == "atsogo"
  }

  /**
   * What one adapter hands back to the aggregator, given what the Atsogo page loop
   * gave: its records, or nothing when it raised. Only the Atsogo adapter can raise
   * (the generic ones catch everything themselves), and it raises exactly when its
   * page loop does.
   */
  function AdapterRun(a: Adapter, web: Web, atsogo: Crawl<Record>): (r: Option<seq<Record>>)
    ensures a.KeywordAdapter? ==> r.Some?
    ensures a.AtsogoAdapter? ==> (r.None? <==> atsogo.Raised?)
    ensures r.Some? && (a.KeywordAdapter? || TaggedAtsogo(atsogo)) ==> forall x :: x in r.value ==> x.source == Name(a)
  {
    match a
    case AtsogoAdapter => if atsogo.Raised? then None else Some(atsogo.items)
    case KeywordAdapter(site) => Some(ScrapeSite(site, web))
  }

  /** What each adapter adds to the aggregate: nothing when it raised. */
  function Contribution(web: Web, atsogo: Crawl<Record>): Adapter -> seq<Record> {
    a => match AdapterRun(a, web, atsogo)
      case None => []
      case Some(rs) => rs
  }

  // ---------------------------------------------------------------------------
  // Concatenating per-adapter results

  /** The results of `f` over `xs`, concatenated in order. */
  function Joined<X, Y>(f: X -> seq<Y>, xs: seq<X>): seq<Y> {
    if xs == [] then [] else Joined(f, xs[..|xs| - 1]) + f(xs[|xs| - 1])
  }

  lemma JoinedStep<X, Y>(f: X -> seq<Y>, xs: seq<X>, i: nat)
    requires i < |xs|
    ensures Joined(f, xs[..i + 1]) == Joined(f, xs[..i]) + f(xs[i])
  {
    assert xs[..i + 1][..i] == xs[..i];
  }

  /** Joining two lists one after the other is joining their concatenation. */
  lemma {:induction false} JoinedAppend<X, Y>(f: X -> seq<Y>, xs: seq<X>, ys: seq<X>)
    ensures Joined(f, xs + ys) == Joined(f, xs) + Joined(f, ys)
    decreases |ys|
  {
    if ys == [] {
      assert xs + ys == xs;
    } else {
      var init := ys[..|ys| - 1];
      JoinedAppend(f, xs, init);
      assert (xs + ys)[..|xs + ys| - 1] == xs + init;
      assert ys[..|ys| - 1] == init;
    }
  }

  /** Every joined value comes from one of the elements. */
  lemma {:induction false} JoinedFrom<X, Y>(f: X -> seq<Y>, xs: seq<X>)
    ensures forall y :: y in Joined(f, xs) ==> exists k :: 0 <= k < |xs| && y in f(xs[k])
  {
    if xs != [] {
      var init := xs[..|xs| - 1];
      JoinedFrom(f, init);
      forall y | y in Joined(f, xs) ensures exists k :: 0 <= k < |xs| && y in f(xs[k]) {
        if y in Joined(f, init) {
          var k :| 0 <= k < |init| && y in f(init[k]);
          assert init[k] == xs[k];
        } else {
          assert y in f(xs[|xs| - 1]);
        }
      }
    }
  }

  lemma SplitAfter<X>(xs: seq<X>, k: nat)
    requires k < |xs|
    ensures xs[..k + 1] + xs[k + 1..] == xs
  {
  }

  /** The results of one element form one block, between those of the elements around it. */
  lemma JoinedBlock<X, Y>(f: X -> seq<Y>, xs: seq<X>, k: nat)
    requires k < |xs|
    ensures Joined(f, xs) == Joined(f, xs[..k]) + f(xs[k]) + Joined(f, xs[k + 1..])
  {
    var upTo, after := xs[..k + 1], xs[k + 1..];
    SplitAfter(xs, k);
    JoinedAppend(f, upTo, after);
    JoinedStep(f, xs, k);
  }

  /** The records of a whole run: every adapter's contribution, in the list's order. */
  function Aggregate(adapters: seq<Adapter>, web: Web, atsogo: Crawl<Record>): seq<Record> {
    Joined(Contribution(web, atsogo), adapters)
  }

  // ---------------------------------------------------------------------------
  // Properties of a run

  /**
   * An adapter that raises loses only its own records: the aggregate is what the
   * adapters before it and after it give, in that order.
   */
  lemma RaisingAdapterIsolated(adapters: seq<Adapter>, web: Web, atsogo: Crawl<Record>, k: nat)
    requires k < |adapters| && AdapterRun(adapters[k], web, atsogo).None?
    ensures Aggregate(adapters, web, atsogo) == Aggregate(adapters[..k], web, atsogo) + Aggregate(adapters[k + 1..], web, atsogo)
  {
    var f := Contribution(web, atsogo);
    JoinedBlock(f, adapters, k);
    assert f(adapters[k]) == [];
    assert Joined(f, adapters[..k]) + f(adapters[k]) == Joined(f, adapters[..k]);
  }

  /** Each adapter's records appear as one block, after those of the adapters before it. */
  lemma AdapterBlock(adapters: seq<Adapter>, web: Web, atsogo: Crawl<Record>, k: nat)
    requires k < |adapters| && AdapterRun(adapters[k], web, atsogo).Some?
    ensures Aggregate(adapters, web, atsogo)
      == Aggregate(adapters[..k], web, atsogo) + AdapterRun(adapters[k], web, atsogo).value
        + Aggregate(adapters[k + 1..], web, atsogo)
  {
    var f := Contribution(web, atsogo);
    JoinedBlock(f, adapters, k);
    assert f(adapters[k]) == AdapterRun(adapters[k], web, atsogo).value;
  }

  /** Every record of a run is tagged with the name of one of the adapters that ran. */
  lemma AggregateSources(adapters: seq<Adapter>, web: Web, atsogo: Crawl<Record>)
    requires TaggedAtsogo(atsogo)
    ensures forall r :: r in Aggregate(adapters, web, atsogo) ==>
      exists k :: 0 <= k < |adapters| && r.source == Name(adapters[k])
  {
    var f := Contribution(web, atsogo);
    JoinedFrom(f, adapters);
    forall r | r in Aggregate(adapters, web, atsogo)
      ensures exists k :: 0 <= k < |adapters| && r.source == Name(adapters[k])
    {
      var k :| 0 <= k < |adapters| && r in f(adapters[k]);
      assert AdapterRun(adapters[k], web, atsogo).Some?;
    }
  }

  /**
   * Both aggregators run the same Atsogo adapter first, so their records start with the
   * same Atsogo block.
   */
  lemma SameAtsogoBlock(web: Web, atsogo: Crawl<Record>)
    ensures var first := Contribution(web, atsogo)(AtsogoAdapter);
      first <= Aggregate(MalawiAdapters, web, atsogo) && first <= Aggregate(MultiAdapters, web, atsogo)
  {
    var f := Contribution(web, atsogo);
    JoinedBlock(f, MalawiAdapters, 0);
    JoinedBlock(f, MultiAdapters, 0);
    assert MalawiAdapters[..0] == MultiAdapters[..0] == [];
  }

  // ---------------------------------------------------------------------------
  // The loops as written

  /** One adapter call inside the aggregator's `try`: its records, or None when it raised. */
  method RunAdapter(a: Adapter, web: Web, cap: Option<int>, ghost bound: nat) returns (found: Option<seq<Record>>)
    requires InlineEndsBy(web, AtsogoPage, cap, 1, bound)
    ensures found == AdapterRun(a, web, AtsogoRun(web, cap, bound))
  {
    match a {
      case AtsogoAdapter =>
        var c := ScrapeAtsogo(web, cap, bound);
        found := if c.Raised? then None else Some(c.items);
      case KeywordAdapter(site) =>
        var properties := ScrapeKeywordSite(site, web);
        found := Some(properties);
    }
  }

  /** scrape_all_websites: run the adapters in order, extending the result with each one's records. */
  method ScrapeAllWebsites(adapters: seq<Adapter>, web: Web, cap: Option<int>, ghost bound: nat)
    returns (allProperties: seq<Record>)
    requires InlineEndsBy(web, AtsogoPage, cap, 1, bound)
    ensures allProperties == Aggregate(adapters, web, AtsogoRun(web, cap, bound))
  {
    allProperties := [];
    ghost var atsogo := AtsogoRun(web, cap, bound);
    for i := 0 to |adapters|
      invariant allProperties == Joined(Contribution(web, atsogo), adapters[..i])
    {
      var found := RunAdapter(adapters[i], web, cap, bound);
      if found.Some? {
        allProperties := allProperties + found.value;
      }
      JoinedStep(Contribution(web, atsogo), adapters, i);
    }
    assert adapters[..|adapters|] == adapters;
  }
}
