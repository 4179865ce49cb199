/** `main` of batch_translate.py once the input lines and the earlier translations are read: it
    picks the words still to translate, translates them in the process-pool or the thread mode,
    merges the results with the earlier ones and lists the rows of the CSV file in input order. */
module Program {
  import opened Common
  import opened Text
  import opened Plan
  import opened Batch
  import Worker

  /** One CSV row: `原文` and `翻译`. */
  datatype Row = Row(word: string, translation: string)

  /** How a run ends: all words were already translated and nothing is written; the process pool
      raises (ZeroDivisionError for 0 threads, ValueError for fewer than 1 process); the thread mode
      waits forever for `unfinished_tasks` to reach 0; or the rows are written. */
  datatype Run = NothingToDo | Crashed | Hangs | Written(rows: seq<Row>)

  /** The rows list every word in input order, with its earlier translation when it had one and
      its new one otherwise. */
  ghost predicate RowsAre(rows: seq<Row>, words: seq<string>, existing: map<string, string>, added: map<string, string>)
  {
    && |rows| == |words|
    && forall i :: 0 <= i < |rows| ==>
         && rows[i].word == words[i]
         && (words[i] in existing ==> rows[i].translation == existing[words[i]])
         && (words[i] !in existing ==> words[i] in added && rows[i].translation == added[words[i]])
  }

  /** `for word in words: if word in all_translations: data.append(...)`. */
  method OrderedRows(words: seq<string>, all: map<string, string>) returns (rows: seq<Row>)
    ensures var kept := Filter(words, all.Keys, true);
            && |rows| == |kept|
            && forall i :: 0 <= i < |rows| ==> rows[i].word == kept[i] && kept[i] in all && rows[i].translation == all[kept[i]]
  {
    rows := [];
    for i := 0 to |words|
      invariant var kept := Filter(words[..i], all.Keys, true);
                && |rows| == |kept|
                && forall j :: 0 <= j < |rows| ==> rows[j].word == kept[j] && kept[j] in all && rows[j].translation == all[kept[j]]
    {
      FilterStep(words, i, all.Keys, true);
      if words[i] in all {
        rows := rows + [Row(words[i], all[words[i]])];
      }
    }
    assert words[..|words|] == words;
  }

  /** The process-pool mode: the batches are sent to `translate_batch` and the results are merged
      in batch order. */
  method PoolTranslate(batches: seq<seq<string>>, tr: string -> Result<string>) returns (results: map<string, string>)
    ensures results == Accumulated(map[], batches, tr)
  {
    results := map[];
    for i := 0 to |batches|
      invariant results == Accumulated(map[], batches[..i], tr)
    {
      var r := TranslateBatch(batches[i], tr);
      AccumulatedSnoc(map[], batches[..i], batches[i], tr);
      assert batches[..i + 1] == batches[..i] + [batches[i]];
      results := results + r;
    }
    assert batches[..|batches|] == batches;
  }

  lemma {:induction false} AsEntriesWords(ws: seq<string>)
    ensures Worker.Words(Worker.AsEntries(ws)) == ws && Worker.Stops(Worker.AsEntries(ws)) == 0
  {
    if ws != [] {
      AsEntriesWords(ws[1..]);
      assert Worker.AsEntries(ws)[1..] == Worker.AsEntries(ws[1..]);
    }
  }

  /** `for word in remaining_words: work_queue.put(word)` on a new queue. */
  method FillQueue(remaining: seq<string>) returns (q: Worker.WorkQueue)
    ensures fresh(q) && q.items == Worker.AsEntries(remaining) && q.unfinished == |remaining|
  {
    q := new Worker.WorkQueue();
    for i := 0 to |remaining|
      invariant q.items == Worker.AsEntries(remaining[..i]) && q.unfinished == i
    {
      assert remaining[..i + 1] == remaining[..i] + [remaining[i]];
      Worker.AsEntriesSnoc(remaining[..i], remaining[i]);
      q.Put(Worker.Word(remaining[i]));
    }
    assert remaining[..|remaining|] == remaining;
  }

  /** The thread mode, with the `min(threads, len(remaining))` workers run one after the other:
      `hangs` is the case where tasks stay unfinished. The first worker empties the queue, so the
      others find nothing to do. */
  method ThreadTranslate(remaining: seq<string>, batchSize: int, threads: int, tr: string -> Result<string>)
    returns (results: map<string, string>, hangs: bool)
    requires remaining != []
    ensures hangs <==> threads < 1 || batchSize < 1
    ensures !hangs ==> batchSize >= 1 && results == Accumulated(map[], Plan.Batches(remaining, batchSize), tr)
  {
    var q := FillQueue(remaining);
    AsEntriesWords(remaining);
    Worker.NoStopsAllWords(q.items);
    results := map[];
    var count := Max(0, Min(threads, |remaining|));
    for t := 0 to count
      invariant Worker.Stops(q.items) == 0 && q.unfinished == |q.items|
      invariant t == 0 || batchSize < 1 ==> Worker.Words(q.items) == remaining && results == map[]
      invariant t > 0 && batchSize >= 1 ==>
                  q.items == [] && results == Accumulated(map[], Plan.Batches(remaining, batchSize), tr)
    {
      ghost var before, batches, reputs := q.items, [], 0;
      Worker.NoStopsAllWords(before);
      results, batches, reputs := Worker.RunWorker(q, batchSize, tr, results);
      Worker.NoStopsAllWords(q.items);
      assert |Flatten(batches)| + |q.items| == |before| by {
        assert |Flatten(batches) + Worker.Words(q.items)| == |Worker.Words(before)|;
      }
      if batchSize >= 1 && t > 0 {
        assert Plan.Batches<string>([], batchSize) == [];
      }
      assert batches == [] ==> Flatten(batches) == [];
    }
    hangs := q.unfinished > 0;
    assert remaining[0] in remaining;
    if !hangs {
      NonEmptyBatches(remaining, batchSize);
    }
  }

  /** A non-empty list has at least one batch. A hint for the solver in `ThreadTranslate`. */
  lemma NonEmptyBatches(s: seq<string>, k: int)
    requires s != [] && k >= 1
    ensures Plan.Batches(s, k) != []
  {
  }

  /** `main` from the cleaned words on: `lines` are the lines of the input file, `existing` the
      translations read from an earlier output file, `requested` the `--batch_size` option,
      `threads` the `--threads` option and `useMp` the `--use_mp` flag. */
  method TranslateFile(lines: seq<string>, existing: map<string, string>, requested: int, threads: int,
                       useMp: bool, tr: string -> Result<string>)
    returns (run: Run)
    ensures run.NothingToDo? <==> forall w :: w in Clean(lines) ==> w in existing
    ensures run.Crashed? <==> Remaining(Clean(lines), existing) != [] && useMp && threads < 1
    ensures run.Hangs? <==> Remaining(Clean(lines), existing) != [] && !useMp && (threads < 1 || requested < 1)
    ensures run.Written? && useMp ==>
              var remaining := Remaining(Clean(lines), existing);
              && threads >= 1 && BatchSize(requested, |remaining|, threads).Some?
              && RowsAre(run.rows, Clean(lines), existing,
                         Accumulated(map[], Plan.Batches(remaining, BatchSize(requested, |remaining|, threads).value), tr))
    ensures run.Written? && !useMp ==>
              && threads >= 1 && requested >= 1
              && RowsAre(run.rows, Clean(lines), existing,
                         Accumulated(map[], Plan.Batches(Remaining(Clean(lines), existing), requested), tr))
  {
    var words := Clean(lines);
    var remaining := Remaining(words, existing);
    RemainingFacts(words, existing);
    if remaining == [] {
      return NothingToDo;
    }
    var results: map<string, string>;
    var k: int;
    if useMp {
      var size := BatchSize(requested, |remaining|, threads);
      if size.None? || threads < 1 {
        return Crashed;
      }
      k := size.value;
      results := PoolTranslate(Plan.Batches(remaining, k), tr);
    } else {
      var hangs;
      results, hangs := ThreadTranslate(remaining, requested, threads, tr);
      if hangs {
        return Hangs;
      }
      k := requested;
    }
    var all := existing + results;
    MergedCovers(words, existing, k, tr);
    FilterKeepsAll(words, all.Keys, true);
    var rows := OrderedRows(words, all);
    return Written(rows);
  }

  /** After the merge every word has a translation: its earlier one, or else the new one. */
  lemma MergedCovers(words: seq<string>, existing: map<string, string>, k: int, tr: string -> Result<string>)
    requires k >= 1
    ensures var added := Accumulated(map[], Plan.Batches(Remaining(words, existing), k), tr);
            forall w :: w in words ==>
              && w in existing + added
              && (w in existing ==> (existing + added)[w] == existing[w])
              && (w !in existing ==> w in added && (existing + added)[w] == added[w])
  {
    var remaining := Remaining(words, existing);
    RemainingFacts(words, existing);
    AccumulatedKeys(map[], Plan.Batches(remaining, k), tr);
    BatchesFlatten(remaining, k);
  }
}
