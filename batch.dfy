/** The translation of one batch of words in batch_translate.py (`translate_batch`, and the same
    steps inside `translate_worker`). The translator is a function from a text to its translation
    or to the message of the exception it raises. */
module Batch {
  import opened Common
  import opened Text

  /** The separator put between the words of a batch and looked for in the translation. */
  const SEP: string := "\n\n---SPLIT---\n\n"

  /** What one word is mapped to when it is translated on its own, inside a `try`: its
      translation, or `f"ERROR: {str(e)}"`. */
  function Individual(tr: string -> Result<string>, w: string): string {
    match tr(w)
    case Ok(t) => t
    case Err(m) => "ERROR: " + m
  }

  /** The pieces of the translated batch text, when the translator succeeds and returns exactly
      one piece per word. */
  function Parts(batch: seq<string>, tr: string -> Result<string>): (p: Option<seq<string>>)
    ensures p.Some? ==> |p.value| == |batch|
  {
    match tr(Join(batch, SEP))
    case Err(_) => None
    case Ok(t) => var parts := Split(t, SEP); if |parts| == |batch| then Some(parts) else None
  }

  /** `result[word] = translated_parts[i]` for every i in order: a later occurrence of a word
      overrides an earlier one. */
  function Aligned(batch: seq<string>, parts: seq<string>): (m: map<string, string>)
    requires |parts| == |batch|
    ensures m.Keys == SetOf(batch)
  {
    if batch == [] then map[]
    else Aligned(batch[..|batch| - 1], parts[..|batch| - 1])[batch[|batch| - 1] := parts[|batch| - 1]]
  }

  /** Every word is translated on its own. */
  function Fallback(batch: seq<string>, tr: string -> Result<string>): (m: map<string, string>)
    ensures m.Keys == SetOf(batch)
  {
    map w | w in batch :: Individual(tr, w)
  }

  /** What `translate_batch` returns. */
  function Translated(batch: seq<string>, tr: string -> Result<string>): (m: map<string, string>)
    ensures m.Keys == SetOf(batch)
  {
    match Parts(batch, tr)
    case Some(parts) => Aligned(batch, parts)
    case None => Fallback(batch, tr)
  }

  /** The aligned map sends each word to the piece at its last occurrence. */
  lemma {:induction false} AlignedAt(batch: seq<string>, parts: seq<string>)
    requires |parts| == |batch|
    ensures forall i :: 0 <= i < |batch| && batch[i] !in batch[i + 1..] ==> Aligned(batch, parts)[batch[i]] == parts[i]
  {
    if batch != [] {
      var n := |batch| - 1;
      var init, pinit := batch[..n], parts[..n];
      AlignedAt(init, pinit);
      assert Aligned(batch, parts) == Aligned(init, pinit)[batch[n] := parts[n]];
      forall i | 0 <= i < |batch| && batch[i] !in batch[i + 1..]
        ensures Aligned(batch, parts)[batch[i]] == parts[i]
      {
        if i < n {
          assert batch[i + 1..] == init[i + 1..] + [batch[n]];
          assert init[i] == batch[i] && pinit[i] == parts[i];
        }
      }
    }
  }

  /** When the pieces line up, the last occurrence of each word gets its piece; otherwise, or when
      the batch translation raises, each word gets its own translation or its `ERROR:` entry. */
  lemma TranslatedValues(batch: seq<string>, tr: string -> Result<string>)
    ensures Parts(batch, tr).Some? ==>
              forall i :: 0 <= i < |batch| && batch[i] !in batch[i + 1..] ==>
                Translated(batch, tr)[batch[i]] == Parts(batch, tr).value[i]
    ensures Parts(batch, tr).None? ==>
              forall w :: w in batch ==>
                Translated(batch, tr)[w] == (match tr(w) case Ok(t) => t case Err(m) => "ERROR: " + m)
  {
    if Parts(batch, tr).Some? {
      AlignedAt(batch, Parts(batch, tr).value);
    }
  }

  /** A translator that keeps the separators and produces pieces free of line feeds lines every
      word up with its own piece. */
  lemma AlignedWhenSeparatorsKept(batch: seq<string>, tr: string -> Result<string>, pieces: seq<string>)
    requires |batch| >= 1 && |pieces| == |batch|
    requires forall p :: p in pieces ==> '\n' !in p
    requires tr(Join(batch, SEP)) == Ok(Join(pieces, SEP))
    ensures Parts(batch, tr) == Some(pieces)
    ensures forall i :: 0 <= i < |batch| && batch[i] !in batch[i + 1..] ==> Translated(batch, tr)[batch[i]] == pieces[i]
  {
    SplitJoin(pieces, SEP);
    AlignedAt(batch, pieces);
  }

  /** `translate_batch`: `into` is the dictionary the entries are written to; it is empty for
      `translate_batch` and the shared `result_dict` for `translate_worker`. */
  method TranslateInto(into: map<string, string>, batch: seq<string>, tr: string -> Result<string>)
    returns (result: map<string, string>)
    ensures result == into + Translated(batch, tr)
  {
    result := into;
    var reply := tr(Join(batch, SEP));
    if reply.Ok? {
      var parts := Split(reply.value, SEP);
      if |parts| == |batch| {
        result := AlignedInto(into, batch, parts);
        return;
      }
      // the mismatch fallback; when it raises, the `except` below translates every word again
      var failed;
      result, failed := OneByOne(into, batch, tr);
      if !failed {
        return;
      }
    }
    result := FallbackInto(result, batch, tr);
  }

  /** `for word in batch: result[word] = translate(word)` outside any `try` of its own: `failed`
      when a translation raises, which leaves the entries of the words before it. */
  method OneByOne(into: map<string, string>, batch: seq<string>, tr: string -> Result<string>)
    returns (result: map<string, string>, failed: bool)
    ensures failed <==> exists w :: w in batch && tr(w).Err?
    ensures !failed ==> result == into + Fallback(batch, tr)
    ensures failed ==> result + Fallback(batch, tr) == into + Fallback(batch, tr)
  {
    result, failed := into, false;
    var i := 0;
    while i < |batch| && !failed
      invariant 0 <= i <= |batch|
      invariant result == into + Fallback(batch[..i], tr)
      invariant forall j :: 0 <= j < i ==> tr(batch[j]).Ok?
      invariant failed ==> i < |batch| && tr(batch[i]).Err?
      decreases |batch| - i, !failed
    {
      match tr(batch[i])
      case Ok(t) =>
        FallbackStep(batch, i, tr);
        UnionUpdate(into, Fallback(batch[..i], tr), batch[i], t);
        result := result[batch[i] := t];
        i := i + 1;
      case Err(_) =>
        failed := true;
    }
    if failed {
      FallbackPrefix(into, batch, i, tr);
    } else {
      assert batch[..i] == batch;
    }
  }

  /** `for i, word in enumerate(batch): result[word] = translated_parts[i]`. */
  method AlignedInto(into: map<string, string>, batch: seq<string>, parts: seq<string>) returns (result: map<string, string>)
    requires |parts| == |batch|
    ensures result == into + Aligned(batch, parts)
  {
    result := into;
    for i := 0 to |batch|
      invariant result == into + Aligned(batch[..i], parts[..i])
    {
      assert batch[..i + 1][..i] == batch[..i] && parts[..i + 1][..i] == parts[..i];
      UnionUpdate(into, Aligned(batch[..i], parts[..i]), batch[i], parts[i]);
      result := result[batch[i] := parts[i]];
    }
    assert batch[..|batch|] == batch && parts[..|batch|] == parts;
  }

  /** The `except` branch: every word translated on its own, an exception giving its `ERROR:` entry. */
  method FallbackInto(into: map<string, string>, batch: seq<string>, tr: string -> Result<string>) returns (result: map<string, string>)
    ensures result == into + Fallback(batch, tr)
  {
    result := into;
    for j := 0 to |batch|
      invariant result == into + Fallback(batch[..j], tr)
    {
      FallbackStep(batch, j, tr);
      UnionUpdate(into, Fallback(batch[..j], tr), batch[j], Individual(tr, batch[j]));
      result := result[batch[j] := Individual(tr, batch[j])];
    }
    assert batch[..|batch|] == batch;
  }

  lemma FallbackStep(batch: seq<string>, i: nat, tr: string -> Result<string>)
    requires i < |batch|
    ensures Fallback(batch[..i + 1], tr) == Fallback(batch[..i], tr)[batch[i] := Individual(tr, batch[i])]
  {
    assert batch[..i + 1] == batch[..i] + [batch[i]];
  }

  /** Translating a prefix of the words on their own first changes nothing in the end. */
  lemma FallbackPrefix(m: map<string, string>, batch: seq<string>, i: nat, tr: string -> Result<string>)
    requires i <= |batch|
    ensures m + Fallback(batch[..i], tr) + Fallback(batch, tr) == m + Fallback(batch, tr)
  {
  }

  /** `translate_batch(batch, from_lang, to_lang)`. */
  method TranslateBatch(batch: seq<string>, tr: string -> Result<string>) returns (result: map<string, string>)
    ensures result == Translated(batch, tr)
  {
    result := TranslateInto(map[], batch, tr);
    assert map[] + Translated(batch, tr) == Translated(batch, tr);
  }

  /** The dictionary after the results of `batches` were written into `into` one batch after
      another (`result_dict.update(batch_results)` for each finished task, or the writes of a
      worker). */
  function Accumulated(into: map<string, string>, batches: seq<seq<string>>, tr: string -> Result<string>)
    : (m: map<string, string>)
  {
    if batches == [] then into
    else Accumulated(into, batches[..|batches| - 1], tr) + Translated(batches[|batches| - 1], tr)
  }

  /** The accumulated dictionary holds the old keys and every word of every batch, and nothing
      else; a word of no batch keeps its old entry. */
  lemma {:induction false} AccumulatedKeys(into: map<string, string>, batches: seq<seq<string>>, tr: string -> Result<string>)
    ensures Accumulated(into, batches, tr).Keys == into.Keys + SetOf(Flatten(batches))
    ensures forall w :: w in into && w !in Flatten(batches) ==> Accumulated(into, batches, tr)[w] == into[w]
  {
    if batches != [] {
      var init, last := batches[..|batches| - 1], batches[|batches| - 1];
      AccumulatedKeys(into, init, tr);
      assert Flatten(batches) == Flatten(init) + last;
    }
  }

  lemma AccumulatedSnoc(into: map<string, string>, batches: seq<seq<string>>, b: seq<string>, tr: string -> Result<string>)
    ensures Accumulated(into, batches + [b], tr) == Accumulated(into, batches, tr) + Translated(b, tr)
  {
    assert (batches + [b])[..|batches|] == batches;
  }

  /** A word gets the translation of the last batch that holds it. */
  lemma {:induction false} AccumulatedAt(into: map<string, string>, batches: seq<seq<string>>, tr: string -> Result<string>,
                                         j: nat, w: string)
    requires j < |batches| && w in batches[j]
    requires forall l :: j < l < |batches| ==> w !in batches[l]
    ensures w in Accumulated(into, batches, tr) && Accumulated(into, batches, tr)[w] == Translated(batches[j], tr)[w]
  {
    var n := |batches| - 1;
    var init, last := batches[..n], batches[n];
    if j < n {
      assert w !in Translated(last, tr);
      assert init[j] == batches[j];
      AccumulatedAt(into, init, tr, j, w);
    }
  }
}
