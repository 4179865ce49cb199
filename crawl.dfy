/** The resumable crawl of GoogleAutoCompleteSuggestions.py: the output file, the progress file
    and the main loop that skips finished queries and records a query only after its output. */
module Crawl {
  import opened Common
  import opened Text
  import opened Autocomplete

  /** What `save_suggestions_to_file` writes: every suggestion followed by a line feed. */
  function Lines(suggestions: seq<string>): string {
    if suggestions == [] then [] else suggestions[0] + "\n" + Lines(suggestions[1..])
  }

  lemma {:induction false} LinesConcat(a: seq<string>, b: seq<string>)
    ensures Lines(a + b) == Lines(a) + Lines(b)
  {
    if a == [] {
      assert a + b == b;
    } else {
      assert (a + b)[1..] == a[1..] + b;
      LinesConcat(a[1..], b);
    }
  }

  lemma {:induction false} LinesAsJoin(suggestions: seq<string>)
    ensures Lines(suggestions) == Join(suggestions + [[]], "\n")
  {
    if suggestions != [] {
      LinesAsJoin(suggestions[1..]);
      assert (suggestions + [[]])[1..] == suggestions[1..] + [[]];
    }
  }

  /** Reading the appended text back line by line gives every suggestion once, in order,
      duplicates included, followed by the empty remainder after the last line feed. */
  lemma LinesRoundTrip(suggestions: seq<string>)
    requires forall s :: s in suggestions ==> '\n' !in s
    ensures Split(Lines(suggestions), "\n") == suggestions + [[]]
  {
    LinesAsJoin(suggestions);
    SplitJoin(suggestions + [[]], "\n");
  }

  /** All output written for the queries, in fetch order. */
  function Output(fetch: string -> seq<string>, queries: seq<string>): string {
    if queries == [] then []
    else Output(fetch, queries[..|queries| - 1]) + Lines(fetch(queries[|queries| - 1]))
  }

  lemma OutputSnoc(fetch: string -> seq<string>, queries: seq<string>, q: string)
    ensures Output(fetch, queries + [q]) == Output(fetch, queries) + Lines(fetch(q))
  {
    assert (queries + [q])[..|queries|] == queries;
  }

  /** The files the crawler touches: text files by name, and progress files by name holding the
      decoded JSON list of finished queries. */
  class Disk {
    var texts: map<string, string>
    var progress: map<string, seq<string>>

    constructor (texts: map<string, string>, progress: map<string, seq<string>>)
      ensures this.texts == texts && this.progress == progress
    {
      this.texts := texts;
      this.progress := progress;
    }

    /** The content of a text file; a missing file reads as empty. */
    function TextOf(name: string): string
      reads this
    {
      Opened(texts, name)
    }

    /** `load_progress`: the saved list, or the empty list when there is no progress file. */
    function LoadProgress(name: string): seq<string>
      reads this
    {
      Loaded(progress, name)
    }

    /** `save_progress`: rewrites the whole progress file. */
    method SaveProgress(queries: seq<string>, name: string)
      modifies this
      ensures progress == old(progress)[name := queries] && texts == old(texts)
      ensures LoadProgress(name) == queries
    {
      progress := progress[name := queries];
    }

    /** `save_suggestions_to_file`: opens the file for appending (creating it when missing) and
        writes the suggestions one per line, in order, without removing duplicates. */
    method AppendSuggestions(suggestions: seq<string>, name: string)
      modifies this
      ensures texts == old(texts)[name := old(TextOf(name)) + Lines(suggestions)]
      ensures progress == old(progress)
    {
      var start := TextOf(name);
      texts := texts[name := start];
      assert Lines(suggestions[..0]) == [] && start + [] == start;
      for i := 0 to |suggestions|
        invariant texts == old(texts)[name := start + Lines(suggestions[..i])]
        invariant progress == old(progress)
      {
        LinesConcat(suggestions[..i], [suggestions[i]]);
        assert suggestions[..i + 1] == suggestions[..i] + [suggestions[i]];
        assert Lines([suggestions[i]]) == suggestions[i] + "\n" by {
          assert [suggestions[i]][1..] == [];
        }
        assert texts[name] == start + Lines(suggestions[..i]);
        texts := texts[name := texts[name] + (suggestions[i] + "\n")];
        assert texts[name] == start + Lines(suggestions[..i + 1]);
        assert texts == old(texts)[name := start + Lines(suggestions[..i + 1])];
      }
      assert suggestions[..|suggestions|] == suggestions;
    }
  }

  /** Where a keyboard interrupt arrives while a query is handled: while its suggestions are
      fetched; after they were appended but before the query is added to the list in memory; or
      after it was added, which leaves the same files whether the interrupt comes before the
      progress list is saved or in the pause after. */
  datatype Point = DuringFetch | BeforeMark | DuringSleep

  /** An interrupt while the query with fetch number `fetchNumber` (counting from 0) is handled. */
  datatype Interrupt = Interrupt(fetchNumber: nat, point: Point)

  datatype Outcome = EmptyRoot | Completed | Interrupted(query: string, point: Point)

  /** The generated queries not yet in the loaded progress list, in generation order. */
  function Pending(root: string, done: seq<string>): seq<string> {
    Filter(AllQueries(root), SetOf(done), false)
  }

  /** The pending queries are new, distinct, and include every generated query not yet done. */
  lemma PendingFacts(root: string, done: seq<string>)
    ensures Distinct(Pending(root, done))
    ensures forall q :: q in Pending(root, done) <==> q in AllQueries(root) && q !in done
  {
    QueriesDistinct(root);
    FilterDistinct(AllQueries(root), SetOf(done), false);
    FilterMembers(AllQueries(root), SetOf(done), false);
  }

  /** `main`: strips the root word and does nothing for an empty one; otherwise runs the crawl
      (`Resume`) for the stripped word. */
  method Run(disk: Disk, input: string, fetch: string -> seq<string>, interrupt: Option<Interrupt>)
    returns (outcome: Outcome, ghost recorded: seq<string>)
    modifies disk
    ensures outcome.EmptyRoot? <==> Strip(input) == []
    ensures outcome.EmptyRoot? ==> disk.texts == old(disk.texts) && disk.progress == old(disk.progress)
    ensures !outcome.EmptyRoot? ==> Resumed(Strip(input), fetch, interrupt, old(disk.texts), old(disk.progress),
                                            disk.texts, disk.progress, outcome, recorded)
  {
    var root := Strip(input);
    if root == [] {
      return EmptyRoot, [];
    }
    outcome, recorded := Resume(disk, root, fetch, interrupt);
  }

  /** What a crawl for `root` leaves behind, from the files before (`texts`, `progress`) and
      after (`texts'`, `progress'`) and the queries `recorded` it added to the progress list. */
  ghost predicate Resumed(root: string, fetch: string -> seq<string>, interrupt: Option<Interrupt>,
                          texts: map<string, string>, progress: map<string, seq<string>>,
                          texts': map<string, string>, progress': map<string, seq<string>>,
                          outcome: Outcome, recorded: seq<string>)
  {
    Visited(AllQueries(root), ProgressFileName(root), OutputFileName(root), fetch, interrupt,
            texts, progress, texts', progress', outcome, recorded)
  }

  /** What visiting the queries `all` leaves behind, with progress file `pname` and output
      file `oname`. */
  ghost predicate Visited(all: seq<string>, pname: string, oname: string,
                          fetch: string -> seq<string>, interrupt: Option<Interrupt>,
                          texts: map<string, string>, progress: map<string, seq<string>>,
                          texts': map<string, string>, progress': map<string, seq<string>>,
                          outcome: Outcome, recorded: seq<string>)
  {
    var done, before := Loaded(progress, pname), Opened(texts, oname);
    var pending := Filter(all, SetOf(done), false);
    var halfDone := outcome.Interrupted? && outcome.point == BeforeMark;
    && !outcome.EmptyRoot?
    // the progress list only grows, by pending queries in generation order
    && progress' == (if recorded != [] || outcome.Interrupted? then progress[pname := done + recorded] else progress)
    // the output holds the suggestions of every recorded query, in that order, and, after an
    // interrupt between the two writes, those of the query not yet recorded
    && texts' == (if recorded != [] || halfDone
                  then texts[oname := if halfDone then before + Output(fetch, recorded) + Lines(fetch(outcome.query))
                                      else before + Output(fetch, recorded)]
                  else texts)
    // an uninterrupted run records every pending query
    && (outcome.Completed? <==> interrupt.None? || interrupt.value.fetchNumber >= |pending|)
    && (outcome.Completed? ==> recorded == pending)
    // an interrupted run stops at the interrupted query, which is recorded only when the
    // interrupt came in the pause after it was recorded
    && (outcome.Interrupted? ==>
          var k := interrupt.value.fetchNumber;
          && k < |pending| && outcome.query == pending[k] && outcome.point == interrupt.value.point
          && recorded == (if outcome.point == DuringSleep then pending[..k + 1] else pending[..k]))
  }

  /** The loop of `main` for a non-empty root word over its generated queries. */
  method Resume(disk: Disk, root: string, fetch: string -> seq<string>, interrupt: Option<Interrupt>)
    returns (outcome: Outcome, ghost recorded: seq<string>)
    modifies disk
    ensures Resumed(root, fetch, interrupt, old(disk.texts), old(disk.progress), disk.texts, disk.progress, outcome, recorded)
  {
    var all := GenerateQueries(root);
    QueriesDistinct(root);
    outcome, recorded := Visit(disk, all, ProgressFileName(root), OutputFileName(root), fetch, interrupt);
  }

  /** Visits the queries in order, skipping those already in the progress list and handing every
      other one to `Handle`. `fetch` stands for `get_google_suggestions`; an interrupt saves the
      progress list and ends the run. `recorded` names the queries added to the progress list. */
  method Visit(disk: Disk, all: seq<string>, pname: string, oname: string,
               fetch: string -> seq<string>, interrupt: Option<Interrupt>)
    returns (outcome: Outcome, ghost recorded: seq<string>)
    requires Distinct(all)
    modifies disk
    ensures Visited(all, pname, oname, fetch, interrupt, old(disk.texts), old(disk.progress),
                    disk.texts, disk.progress, outcome, recorded)
  {
    ghost var texts0, progress0 := disk.texts, disk.progress;
    var processed := disk.LoadProgress(pname);
    ghost var done := processed;
    recorded := [];
    var fetches := 0;
    var i := 0;
    PartialStart(all, pname, oname, fetch, texts0, progress0);
    while i < |all|
      invariant Partial(all, pname, oname, fetch, texts0, progress0, i, recorded, disk.texts, disk.progress)
      invariant processed == done + recorded && fetches == |recorded|
      invariant interrupt.Some? ==> fetches <= interrupt.value.fetchNumber
    {
      var query := all[i];
      if query in processed {
        PartialSkip(all, pname, oname, fetch, texts0, progress0, i, recorded, disk.texts, disk.progress);
        i := i + 1;
        continue;
      }
      // a keyboard interrupt while this query is handled, and where
      var at := if interrupt.Some? && interrupt.value.fetchNumber == fetches then Some(interrupt.value.point) else None;
      ghost var texts1, progress1 := disk.texts, disk.progress;
      SnocAssoc(done, recorded, query);
      Handle(disk, query, processed, pname, oname, fetch, at);
      if at.Some? {
        PartialInterrupted(all, pname, oname, fetch, interrupt, texts0, progress0, i, recorded, texts1, progress1);
        if at.value != DuringSleep {
          return Interrupted(query, at.value), recorded;
        }
      } else {
        PartialRecord(all, pname, oname, fetch, texts0, progress0, i, recorded, texts1, progress1);
      }
      processed := processed + [query];
      recorded := recorded + [query];
      if at.Some? {
        return Interrupted(query, DuringSleep), recorded;
      }
      fetches := fetches + 1;
      i := i + 1;
    }
    PartialCompleted(all, pname, oname, fetch, interrupt, texts0, progress0, recorded, disk.texts, disk.progress);
    outcome := Completed;
  }

  /** The progress list a crawl starts from. */
  function Loaded(progress: map<string, seq<string>>, pname: string): seq<string> {
    if pname in progress then progress[pname] else []
  }

  /** The output text a crawl starts from. */
  function Opened(texts: map<string, string>, oname: string): string {
    if oname in texts then texts[oname] else []
  }

  /** The state after visiting the first i queries without interrupt, having recorded `recorded`. */
  ghost predicate Partial(all: seq<string>, pname: string, oname: string, fetch: string -> seq<string>,
                          texts: map<string, string>, progress: map<string, seq<string>>,
                          i: nat, recorded: seq<string>,
                          texts': map<string, string>, progress': map<string, seq<string>>)
  {
    var done, before := Loaded(progress, pname), Opened(texts, oname);
    && i <= |all|
    && recorded == Filter(all[..i], SetOf(done), false)
    && progress' == (if recorded != [] then progress[pname := done + recorded] else progress)
    && texts' == (if recorded != [] then texts[oname := before + Output(fetch, recorded)] else texts)
  }

  lemma PartialStart(all: seq<string>, pname: string, oname: string, fetch: string -> seq<string>,
                     texts: map<string, string>, progress: map<string, seq<string>>)
    ensures Partial(all, pname, oname, fetch, texts, progress, 0, [], texts, progress)
  {
    assert all[..0] == [];
  }

  /** A query already in the progress list changes nothing. */
  lemma PartialSkip(all: seq<string>, pname: string, oname: string, fetch: string -> seq<string>,
                    texts: map<string, string>, progress: map<string, seq<string>>,
                    i: nat, recorded: seq<string>,
                    texts': map<string, string>, progress': map<string, seq<string>>)
    requires Distinct(all) && i < |all|
    requires Partial(all, pname, oname, fetch, texts, progress, i, recorded, texts', progress')
    requires all[i] in Loaded(progress, pname) + recorded
    ensures Partial(all, pname, oname, fetch, texts, progress, i + 1, recorded, texts', progress')
  {
    var done := Loaded(progress, pname);
    assert all[i] in SetOf(done) || all[i] in recorded;
    FilterSkip(all, i, SetOf(done), recorded);
  }

  /** A new query handled without interrupt is recorded after its suggestions are appended. */
  lemma PartialRecord(all: seq<string>, pname: string, oname: string, fetch: string -> seq<string>,
                      texts: map<string, string>, progress: map<string, seq<string>>,
                      i: nat, recorded: seq<string>,
                      texts': map<string, string>, progress': map<string, seq<string>>)
    requires i < |all|
    requires Partial(all, pname, oname, fetch, texts, progress, i, recorded, texts', progress')
    requires all[i] !in Loaded(progress, pname) + recorded
    ensures Partial(all, pname, oname, fetch, texts, progress, i + 1, recorded + [all[i]],
                    texts'[oname := Opened(texts', oname) + Lines(fetch(all[i]))],
                    progress'[pname := Loaded(progress, pname) + recorded + [all[i]]])
  {
    var done, before := Loaded(progress, pname), Opened(texts, oname);
    FilterStep(all, i, SetOf(done), false);
    assert Opened(texts', oname) == before + Output(fetch, recorded) by {
      assert Output(fetch, []) == [] && before + [] == before;
    }
    OutputStep(fetch, before, recorded, all[i]);
    SnocAssoc(done, recorded, all[i]);
    UpdateTwice(texts, oname, before + Output(fetch, recorded), before + Output(fetch, recorded + [all[i]]));
    UpdateTwice(progress, pname, done + recorded, done + recorded + [all[i]]);
  }

  /** An interrupt while a new query is handled, at any of the three points. */
  lemma PartialInterrupted(all: seq<string>, pname: string, oname: string, fetch: string -> seq<string>,
                           interrupt: Option<Interrupt>,
                           texts: map<string, string>, progress: map<string, seq<string>>,
                           i: nat, recorded: seq<string>,
                           texts': map<string, string>, progress': map<string, seq<string>>)
    requires i < |all|
    requires Partial(all, pname, oname, fetch, texts, progress, i, recorded, texts', progress')
    requires all[i] !in Loaded(progress, pname) + recorded
    requires interrupt.Some? && interrupt.value.fetchNumber == |recorded|
    ensures var q, p, done := all[i], interrupt.value.point, Loaded(progress, pname);
            var saved := if p == DuringSleep then recorded + [q] else recorded;
            Visited(all, pname, oname, fetch, interrupt, texts, progress,
                    if p == DuringFetch then texts' else texts'[oname := Opened(texts', oname) + Lines(fetch(q))],
                    progress'[pname := done + saved],
                    Interrupted(q, p), saved)
  {
    var done, before := Loaded(progress, pname), Opened(texts, oname);
    FilterSplit(all, i, SetOf(done), false);
    assert Opened(texts', oname) == before + Output(fetch, recorded) by {
      assert Output(fetch, []) == [] && before + [] == before;
    }
    OutputStep(fetch, before, recorded, all[i]);
    SnocAssoc(done, recorded, all[i]);
    UpdateTwice(texts, oname, before + Output(fetch, recorded), before + Output(fetch, recorded + [all[i]]));
    UpdateTwice(texts, oname, before + Output(fetch, recorded), before + Output(fetch, recorded) + Lines(fetch(all[i])));
    UpdateTwice(progress, pname, done + recorded, done + recorded + [all[i]]);
    UpdateTwice(progress, pname, done + recorded, done + recorded);
  }

  /** Once every query is visited without interrupt, every pending query is recorded. */
  lemma PartialCompleted(all: seq<string>, pname: string, oname: string, fetch: string -> seq<string>,
                         interrupt: Option<Interrupt>,
                         texts: map<string, string>, progress: map<string, seq<string>>,
                         recorded: seq<string>,
                         texts': map<string, string>, progress': map<string, seq<string>>)
    requires Partial(all, pname, oname, fetch, texts, progress, |all|, recorded, texts', progress')
    requires interrupt.Some? ==> |recorded| <= interrupt.value.fetchNumber
    ensures Visited(all, pname, oname, fetch, interrupt, texts, progress, texts', progress', Completed, recorded)
  {
    assert all[..|all|] == all;
  }

  /** The body of the `try` that handles one query not yet in the progress list: fetch, append
      the suggestions to the output file, append the query to the progress list and save it. An
      interrupt at point `at` skips what follows that point and saves the progress list. */
  method Handle(disk: Disk, query: string, processed: seq<string>, pname: string, oname: string,
                fetch: string -> seq<string>, at: Option<Point>)
    modifies disk
    ensures disk.progress == old(disk.progress)[pname := if at == Some(DuringFetch) || at == Some(BeforeMark)
                                                         then processed else processed + [query]]
    ensures disk.texts == if at == Some(DuringFetch) then old(disk.texts)
                          else old(disk.texts)[oname := old(disk.TextOf(oname)) + Lines(fetch(query))]
  {
    if at == Some(DuringFetch) {
      disk.SaveProgress(processed, pname);
      return;
    }
    var suggestions := fetch(query);
    disk.AppendSuggestions(suggestions, oname);
    if at == Some(BeforeMark) {
      disk.SaveProgress(processed, pname);
      return;
    }
    disk.SaveProgress(processed + [query], pname);
    if at == Some(DuringSleep) {
      disk.SaveProgress(processed + [query], pname);
    }
  }

  /** Regrouping the progress list with one more query. A hint for the solver in `Visit` and the
      `Partial` lemmas. */
  lemma SnocAssoc(a: seq<string>, b: seq<string>, x: string)
    ensures a + b + [x] == a + (b + [x])
  {
  }

  lemma OutputStep(fetch: string -> seq<string>, before: string, queries: seq<string>, q: string)
    ensures before + Output(fetch, queries + [q]) == before + Output(fetch, queries) + Lines(fetch(q))
  {
    OutputSnoc(fetch, queries, q);
  }

  /** A completed crawl leaves every generated query in the progress list, each once beyond
      what was there before. */
  lemma CompletedRecordsAll(root: string, done: seq<string>, recorded: seq<string>)
    requires recorded == Pending(root, done)
    ensures forall q :: q in AllQueries(root) ==> q in done + recorded
    ensures Distinct(recorded) && forall q :: q in recorded ==> q !in done
  {
    PendingFacts(root, done);
  }

  /** Whatever the outcome, the queries a crawl adds to the progress list are generated ones,
      each added once and none already there, and they are appended after the old list. */
  lemma RecordedAreNew(root: string, fetch: string -> seq<string>, interrupt: Option<Interrupt>,
                       texts: map<string, string>, progress: map<string, seq<string>>,
                       texts': map<string, string>, progress': map<string, seq<string>>,
                       outcome: Outcome, recorded: seq<string>)
    requires Resumed(root, fetch, interrupt, texts, progress, texts', progress', outcome, recorded)
    ensures var done := Loaded(progress, ProgressFileName(root));
            && Loaded(progress', ProgressFileName(root)) == done + recorded
            && Distinct(recorded)
            && forall q :: q in recorded ==> q in AllQueries(root) && q !in done
  {
    var done := Loaded(progress, ProgressFileName(root));
    var pending := Pending(root, done);
    PendingFacts(root, done);
    var n := if outcome.Completed? then |pending|
             else if outcome.point == DuringSleep then interrupt.value.fetchNumber + 1
             else interrupt.value.fetchNumber;
    assert pending[..|pending|] == pending;
    PrefixDistinct(pending, n);
    assert recorded == [] ==> done + recorded == done;
  }
}
