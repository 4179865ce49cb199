/** `translate_worker` of batch_translate.py run by one thread: it takes batches of words from the
    work queue, translates each batch like `translate_batch` into the shared result dictionary
    and marks every word of the batch done. */
module Worker {
  import opened Common
  import opened Batch
  import Plan

  /** A queue entry: a word, or the `None` end signal. */
  datatype Entry = Word(text: string) | Stop

  /** The words of a run of entries, in order. */
  function Words(items: seq<Entry>): (ws: seq<string>)
    ensures |ws| <= |items|
  {
    if items == [] then []
    else (if items[0].Word? then [items[0].text] else []) + Words(items[1..])
  }

  /** The number of end signals among the entries. */
  function Stops(items: seq<Entry>): nat {
    if items == [] then 0 else (if items[0].Stop? then 1 else 0) + Stops(items[1..])
  }

  lemma {:induction false} WordsConcat(a: seq<Entry>, b: seq<Entry>)
    ensures Words(a + b) == Words(a) + Words(b) && Stops(a + b) == Stops(a) + Stops(b)
  {
    if a == [] {
      assert a + b == b;
    } else {
      var head := if a[0].Word? then [a[0].text] else [];
      assert (a + b)[0] == a[0] && (a + b)[1..] == a[1..] + b;
      WordsConcat(a[1..], b);
      assert Words(a + b) == head + Words(a[1..] + b);
      assert head + (Words(a[1..]) + Words(b)) == (head + Words(a[1..])) + Words(b);
    }
  }

  lemma {:induction false} NoStopsAllWords(items: seq<Entry>)
    requires Stops(items) == 0
    ensures |Words(items)| == |items|
  {
    if items != [] {
      NoStopsAllWords(items[1..]);
    }
  }

  /** `queue.Queue` as the worker uses it: the entries in order and `unfinished_tasks`. */
  class WorkQueue {
    var items: seq<Entry>
    var unfinished: nat

    constructor ()
      ensures items == [] && unfinished == 0
    {
      items := [];
      unfinished := 0;
    }

    /** `put`: appends an entry and counts one more unfinished task. */
    method Put(e: Entry)
      modifies this
      ensures items == old(items) + [e] && unfinished == old(unfinished) + 1
    {
      items := items + [e];
      unfinished := unfinished + 1;
    }

    /** `get(block=False)`: the first entry, or `None` for the `queue.Empty` exception. */
    method GetNowait() returns (e: Option<Entry>)
      modifies this
      ensures old(items) == [] ==> e.None? && items == []
      ensures old(items) != [] ==> e == Some(old(items)[0]) && items == old(items)[1..]
      ensures unfinished == old(unfinished)
    {
      if items == [] {
        return None;
      }
      e := Some(items[0]);
      items := items[1..];
    }

    /** `task_done`: counts one task less; `ok` is false for the ValueError raised when no task
        is unfinished. */
    method TaskDone() returns (ok: bool)
      modifies this
      ensures ok == (old(unfinished) > 0)
      ensures unfinished == if ok then old(unfinished) - 1 else old(unfinished)
      ensures items == old(items)
    {
      ok := unfinished > 0;
      if ok {
        unfinished := unfinished - 1;
      }
    }
  }

  /** What the inner `for _ in range(batch_size)` loop takes from the entries `items`: the batch,
      whether it met the end signal (and put it back at the end), and the entries left. */
  datatype Taken = Taken(batch: seq<string>, sentinel: bool, rest: seq<Entry>)

  function Take(items: seq<Entry>, n: int): Taken
    decreases if n > 0 then n else 0
  {
    if n <= 0 || items == [] then Taken([], false, items)
    else if items[0].Stop? then Taken([], true, items[1..] + [Stop])
    else
      var t := Take(items[1..], n - 1);
      Taken([items[0].text] + t.batch, t.sentinel, t.rest)
  }

  /** A batch holds at most n words, the first words of the queue in order; the words and the
      number of end signals are kept; the batch is empty exactly when n <= 0, the queue is empty
      or it starts with the end signal; without an end signal the batch is the first n words and
      nothing is put back. */
  lemma {:induction false} TakeShape(items: seq<Entry>, n: int)
    ensures var t := Take(items, n);
            && |t.batch| <= Max(n, 0)
            && Words(items) == t.batch + Words(t.rest)
            && Stops(t.rest) == Stops(items)
            && |items| == |t.batch| + |t.rest|
            && (t.batch == [] <==> n <= 0 || items == [] || items[0].Stop?)
            && (t.sentinel ==> Stops(items) > 0)
            && (Stops(items) == 0 ==> !t.sentinel && |t.batch| == Min(Max(n, 0), |items|))
    decreases if n > 0 then n else 0
  {
    var t := Take(items, n);
    if n <= 0 || items == [] {
    } else if items[0].Stop? {
      WordsConcat(items[1..], [Stop]);
      assert Words([Stop]) == [] && Stops([Stop]) == 1 by {
        assert [Stop][1..] == [];
      }
    } else {
      TakeShape(items[1..], n - 1);
    }
  }

  /** The batch is the words at the front of the queue, in order. */
  lemma {:induction false} TakeFront(items: seq<Entry>, n: int)
    ensures var t := Take(items, n);
            |t.batch| <= |items| && items[..|t.batch|] == AsEntries(t.batch)
    decreases if n > 0 then n else 0
  {
    if n > 0 && items != [] && items[0].Word? {
      TakeFront(items[1..], n - 1);
      var b, u := Take(items, n).batch, Take(items[1..], n - 1).batch;
      assert b == [items[0].text] + u;
      assert b[1..] == u;
      assert AsEntries(b) == [Word(items[0].text)] + AsEntries(u);
      assert items[..|b|] == [items[0]] + items[1..][..|u|];
    }
  }

  /** Where a take stops: at the first end signal, which is removed and put back at the end; or
      else after n words or at the end of the queue, leaving the rest of the queue as it was. */
  lemma {:induction false} TakeStops(items: seq<Entry>, n: int)
    ensures var t := Take(items, n);
            && (t.sentinel ==> && |t.batch| < n && |t.batch| < |items| && items[|t.batch|] == Stop
                               && t.rest == items[|t.batch| + 1..] + [Stop])
            && (!t.sentinel ==> |t.batch| <= |items| && t.rest == items[|t.batch|..]
                                && (|t.batch| == Max(n, 0) || |t.batch| == |items|))
    decreases if n > 0 then n else 0
  {
    if n > 0 && items != [] && items[0].Word? {
      TakeStops(items[1..], n - 1);
      var t, u := Take(items, n), Take(items[1..], n - 1);
      assert |t.batch| == |u.batch| + 1 && t.sentinel == u.sentinel && t.rest == u.rest;
      if u.sentinel {
        assert items[|t.batch|] == items[1..][|u.batch|];
        assert items[1..][|u.batch| + 1..] == items[|t.batch| + 1..];
      } else {
        assert items[1..][|u.batch|..] == items[|t.batch|..];
      }
    }
  }

  /** The entries of some words. */
  function AsEntries(ws: seq<string>): (es: seq<Entry>)
    ensures |es| == |ws| && forall i :: 0 <= i < |ws| ==> es[i] == Word(ws[i])
  {
    if ws == [] then [] else [Word(ws[0])] + AsEntries(ws[1..])
  }

  /** Taking after some words were already taken. */
  lemma {:induction false} TakeAfter(ws: seq<string>, items: seq<Entry>, n: int)
    requires ws == [] || |ws| <= n
    ensures var t := Take(items, n - |ws|);
            Take(AsEntries(ws) + items, n) == Taken(ws + t.batch, t.sentinel, t.rest)
  {
    if ws != [] {
      var rest := AsEntries(ws[1..]) + items;
      assert (AsEntries(ws) + items)[0] == Word(ws[0]);
      assert (AsEntries(ws) + items)[1..] == rest;
      TakeAfter(ws[1..], items, n - 1);
      assert [ws[0]] + (ws[1..] + Take(items, n - |ws|).batch) == ws + Take(items, n - |ws|).batch;
    } else {
      assert AsEntries(ws) + items == items;
    }
  }

  /** The inner loop of `translate_worker` that fills `batch`. */
  method TakeBatch(q: WorkQueue, n: int) returns (batch: seq<string>, sentinel: bool)
    modifies q
    ensures Taken(batch, sentinel, q.items) == Take(old(q.items), n)
    ensures q.unfinished == old(q.unfinished) + (if sentinel then 1 else 0)
  {
    batch, sentinel := [], false;
    var k := 0;
    while k < n
      invariant 0 <= k == |batch| && k <= Max(n, 0)
      invariant old(q.items) == AsEntries(batch) + q.items
      invariant q.unfinished == old(q.unfinished)
    {
      ghost var pre := q.items;
      var e := q.GetNowait();
      if e.None? {
        break;
      }
      if e.value.Stop? {
        ghost var rest := q.items;
        assert pre == [Stop] + rest;
        q.Put(Stop);
        sentinel := true;
        TakeAfter(batch, [Stop] + rest, n);
        assert ([Stop] + rest)[1..] == rest;
        assert Take([Stop] + rest, n - |batch|) == Taken([], true, rest + [Stop]);
        assert batch + [] == batch;
        return;
      }
      AsEntriesSnoc(batch, e.value.text);
      batch := batch + [e.value.text];
      k := k + 1;
    }
    TakeAfter(batch, q.items, n);
    assert batch + [] == batch;
  }

  lemma AsEntriesSnoc(ws: seq<string>, w: string)
    ensures AsEntries(ws + [w]) == AsEntries(ws) + [Word(w)]
  {
  }

  /** What one worker alone on the entries does: the batches it takes, the entries it leaves and
      the number of times it puts the end signal back. */
  datatype Drained = Drained(batches: seq<seq<string>>, rest: seq<Entry>, reputs: nat)

  /** Successive takes up to the first one that comes back empty, where the worker returns. */
  function Drain(items: seq<Entry>, k: int): Drained
    decreases |Words(items)|
  {
    var t := Take(items, k);
    var s := if t.sentinel then 1 else 0;
    if t.batch == [] then Drained([], t.rest, s)
    else
      TakeShape(items, k);
      var d := Drain(t.rest, k);
      Drained([t.batch] + d.batches, d.rest, s + d.reputs)
  }

  /** The batches of a drain are the words of the queue in order. */
  lemma {:induction false} DrainOrder(items: seq<Entry>, k: int)
    ensures var d := Drain(items, k);
            Flatten(d.batches) + Words(d.rest) == Words(items)
    decreases |Words(items)|
  {
    var t := Take(items, k);
    TakeShape(items, k);
    if t.batch == [] {
      assert Flatten<string>([]) == [];
    } else {
      var d := Drain(t.rest, k);
      assert Drain(items, k).batches == [t.batch] + d.batches && Drain(items, k).rest == d.rest;
      DrainOrder(t.rest, k);
      FlattenCons(t.batch, d.batches);
      assert Flatten([t.batch] + d.batches) + Words(d.rest) == t.batch + (Flatten(d.batches) + Words(d.rest));
    }
  }

  /** Every batch of a drain holds 1 to k words, and the end signals stay queued. */
  lemma {:induction false} DrainSizes(items: seq<Entry>, k: int)
    ensures forall b :: b in Drain(items, k).batches ==> 1 <= |b| <= k
    ensures Stops(Drain(items, k).rest) == Stops(items)
    decreases |Words(items)|
  {
    var t := Take(items, k);
    TakeShape(items, k);
    if t.batch != [] {
      var d := Drain(t.rest, k);
      assert Drain(items, k).batches == [t.batch] + d.batches && Drain(items, k).rest == d.rest;
      DrainSizes(t.rest, k);
      assert forall b :: b in [t.batch] + d.batches ==> b == t.batch || b in d.batches;
    }
  }

  /** A worker that finds the end signal first puts it back and returns at once. */
  lemma SignalFirst(more: seq<Entry>, k: int)
    requires k >= 1
    ensures Drain([Stop] + more, k) == Drained([], more + [Stop], 1)
  {
    assert ([Stop] + more)[1..] == more;
  }

  /** Without an end signal a worker takes the batches of `Plan.Batches` and empties the queue. */
  lemma {:induction false} DrainWords(items: seq<Entry>, k: int)
    requires Stops(items) == 0 && k >= 1
    ensures Drain(items, k) == Drained(Plan.Batches(Words(items), k), [], 0)
    decreases |Words(items)|
  {
    var t := Take(items, k);
    TakeShape(items, k);
    NoStopsAllWords(items);
    if t.batch == [] {
      assert Words(items) == [];
    } else {
      DrainWords(t.rest, k);
      Plan.BatchesCons(t.batch, Words(t.rest), k);
    }
  }

  /** The drain of the entries equals the batches taken so far followed by the drain of what is
      left. */
  ghost predicate DrainSoFar(items0: seq<Entry>, k: int, batches: seq<seq<string>>, reputs: nat, items: seq<Entry>)
  {
    var d := Drain(items, k);
    Drain(items0, k) == Drained(batches + d.batches, d.rest, reputs + d.reputs)
  }

  lemma DrainStart(items0: seq<Entry>, k: int)
    ensures DrainSoFar(items0, k, [], 0, items0)
  {
    assert [] + Drain(items0, k).batches == Drain(items0, k).batches;
  }

  lemma DrainStep(items0: seq<Entry>, k: int, batches: seq<seq<string>>, reputs: nat, before: seq<Entry>)
    requires DrainSoFar(items0, k, batches, reputs, before)
    requires Take(before, k).batch != []
    ensures var t := Take(before, k);
            DrainSoFar(items0, k, batches + [t.batch], reputs + (if t.sentinel then 1 else 0), t.rest)
  {
    var t := Take(before, k);
    ConsAssoc(batches, t.batch, Drain(t.rest, k).batches);
  }

  lemma DrainEnd(items0: seq<Entry>, k: int, batches: seq<seq<string>>, reputs: nat, before: seq<Entry>)
    requires DrainSoFar(items0, k, batches, reputs, before)
    requires Take(before, k).batch == []
    ensures var t := Take(before, k);
            Drain(items0, k) == Drained(batches, t.rest, reputs + (if t.sentinel then 1 else 0))
  {
    assert batches + [] == batches;
  }

  /** What holds after the worker translated `batches` from the entries `items0`: the batches
      are the words taken so far in order, each of 1 to k words; the end signal stays queued; every
      taken word was marked done and every re-put end signal counted; without an end signal the
      batches so far are the first batches of `Plan.Batches`. */
  ghost predicate Progress(items0: seq<Entry>, unfinished0: nat, k: int, batches: seq<seq<string>>, reputs: nat,
                           items: seq<Entry>, unfinished: nat)
  {
    && Flatten(batches) + Words(items) == Words(items0) && Stops(items) == Stops(items0)
    && |items| + |Flatten(batches)| == |items0| && |items| <= unfinished
    && (forall b :: b in batches ==> 1 <= |b| <= k)
    && unfinished == unfinished0 - |Flatten(batches)| + reputs
    && (Stops(items0) == 0 ==> reputs == 0)
    && (Stops(items0) == 0 && k >= 1 ==> Plan.Batches(Words(items0), k) == batches + Plan.Batches(Words(items), k))
  }

  lemma ProgressStart(items0: seq<Entry>, unfinished0: nat, k: int)
    requires |items0| <= unfinished0
    ensures Progress(items0, unfinished0, k, [], 0, items0, unfinished0)
  {
    assert Flatten<string>([]) == [];
  }

  /** One batch taken, translated and marked done. */
  lemma ProgressStep(items0: seq<Entry>, unfinished0: nat, k: int, batches: seq<seq<string>>, reputs: nat,
                     before: seq<Entry>, unfinished: nat)
    requires Progress(items0, unfinished0, k, batches, reputs, before, unfinished)
    requires Take(before, k).batch != []
    ensures var t, s := Take(before, k), if Take(before, k).sentinel then 1 else 0;
            && |t.batch| <= unfinished
            && Progress(items0, unfinished0, k, batches + [t.batch], reputs + s, t.rest, unfinished + s - |t.batch|)
  {
    var t, s := Take(before, k), if Take(before, k).sentinel then 1 else 0;
    var nb := batches + [t.batch];
    TakeShape(before, k);
    FlattenSnoc(batches, t.batch);
    assert Flatten(nb) + Words(t.rest) == Words(items0) by {
      assert Flatten(nb) + Words(t.rest) == Flatten(batches) + (t.batch + Words(t.rest));
    }
    assert forall b :: b in nb ==> 1 <= |b| <= k by {
      assert forall b :: b in nb ==> b in batches || b == t.batch;
    }
    if Stops(items0) == 0 && k >= 1 {
      NoStopsAllWords(before);
      BatchesTake(Words(items0), batches, Words(before), t.batch, Words(t.rest), k);
    }
  }

  /** The worker stops when it takes nothing; without an end signal the queue is then empty. */
  lemma ProgressEnd(items0: seq<Entry>, unfinished0: nat, k: int, batches: seq<seq<string>>, reputs: nat,
                    before: seq<Entry>, unfinished: nat)
    requires Progress(items0, unfinished0, k, batches, reputs, before, unfinished)
    requires Take(before, k).batch == []
    ensures var t, s := Take(before, k), if Take(before, k).sentinel then 1 else 0;
            && Progress(items0, unfinished0, k, batches, reputs + s, t.rest, unfinished + s)
            && (Stops(items0) == 0 && k >= 1 ==> t.rest == [] && batches == Plan.Batches(Words(items0), k))
  {
    TakeShape(before, k);
    if Stops(items0) == 0 && k >= 1 {
      assert Plan.Batches(Words(before), k) == [];
      assert batches + [] == batches;
    }
  }

  /** `translate_worker` run alone on the queue: `results` is the shared `result_dict` after it,
      `batches` the batches it translated and `reputs` the number of times it put the end signal
      back. `|q.items| <= q.unfinished` holds for a queue whose entries were all `put` and not yet
      marked done, as in `main`; under it `task_done` never raises, so the worker's outer `except`
      is never taken. */
  method RunWorker(q: WorkQueue, batchSize: int, tr: string -> Result<string>, into: map<string, string>)
    returns (results: map<string, string>, ghost batches: seq<seq<string>>, ghost reputs: nat)
    requires |q.items| <= q.unfinished
    modifies q
    ensures results == Accumulated(into, batches, tr)
    ensures Flatten(batches) + Words(q.items) == Words(old(q.items)) && Stops(q.items) == Stops(old(q.items))
    ensures forall b :: b in batches ==> 1 <= |b| <= batchSize
    ensures q.unfinished == old(q.unfinished) - |Flatten(batches)| + reputs
    ensures Stops(old(q.items)) == 0 ==> reputs == 0
    ensures Stops(old(q.items)) == 0 && batchSize >= 1 ==>
              q.items == [] && batches == Plan.Batches(Words(old(q.items)), batchSize)
    ensures Drain(old(q.items), batchSize) == Drained(batches, q.items, reputs)
  {
    results, batches, reputs := into, [], 0;
    ghost var items0, unfinished0 := q.items, q.unfinished;
    ProgressStart(items0, unfinished0, batchSize);
    DrainStart(items0, batchSize);
    while true
      invariant results == Accumulated(into, batches, tr)
      invariant Progress(items0, unfinished0, batchSize, batches, reputs, q.items, q.unfinished)
      invariant DrainSoFar(items0, batchSize, batches, reputs, q.items)
      decreases |Words(q.items)|
    {
      ghost var before, u := q.items, q.unfinished;
      var batch, sentinel := TakeBatch(q, batchSize);
      if batch == [] {
        // the worker returns on the end signal and stops on an empty queue
        ProgressEnd(items0, unfinished0, batchSize, batches, reputs, before, u);
        DrainEnd(items0, batchSize, batches, reputs, before);
        if sentinel {
          reputs := reputs + 1;
        }
        return;
      }
      ProgressStep(items0, unfinished0, batchSize, batches, reputs, before, u);
      DrainStep(items0, batchSize, batches, reputs, before);
      TakeShape(before, batchSize);
      results := TranslateInto(results, batch, tr);
      AccumulatedSnoc(into, batches, batch, tr);
      ghost var u1 := q.unfinished;
      for j := 0 to |batch|
        invariant q.items == Take(before, batchSize).rest
        invariant q.unfinished == u1 - j
      {
        var ok := q.TaskDone();
        assert ok;
      }
      batches := batches + [batch];
      if sentinel {
        reputs := reputs + 1;
      }
    }
  }

  /** Without end signals a batch is the next batch of `Plan.Batches`. */
  lemma BatchesTake<T>(all: seq<T>, done: seq<seq<T>>, ws: seq<T>, batch: seq<T>, rest: seq<T>, k: nat)
    requires k >= 1 && Plan.Batches(all, k) == done + Plan.Batches(ws, k)
    requires ws == batch + rest && batch != [] && |batch| == Min(k, |ws|)
    ensures Plan.Batches(all, k) == (done + [batch]) + Plan.Batches(rest, k)
  {
    Plan.BatchesCons(batch, rest, k);
    ConsAssoc(done, batch, Plan.Batches(rest, k));
  }
}
