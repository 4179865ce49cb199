/** The pure planning steps of batch_translate.py: cleaning the input lines, keeping the words
    still to translate, the batch-size clamp of the process-pool mode and the batch slicing. */
module Plan {
  import opened Common
  import opened Text

  /** `[word.strip() for word in lines if word.strip()]`. */
  function Clean(lines: seq<string>): (words: seq<string>)
    ensures |words| <= |lines|
  {
    if lines == [] then []
    else
      var w := Strip(lines[0]);
      (if w == [] then [] else [w]) + Clean(lines[1..])
  }

  /** Every cleaned word is non-empty and already stripped. */
  lemma {:induction false} CleanWords(lines: seq<string>)
    ensures forall w :: w in Clean(lines) ==> w != [] && Strip(w) == w
  {
    if lines != [] {
      StripIdempotent(lines[0]);
      CleanWords(lines[1..]);
    }
  }

  /** Cleaning works line by line, so it keeps the order of the lines. */
  lemma {:induction false} CleanConcat(a: seq<string>, b: seq<string>)
    ensures Clean(a + b) == Clean(a) + Clean(b)
  {
    if a == [] {
      assert a + b == b;
    } else {
      assert (a + b)[0] == a[0] && (a + b)[1..] == a[1..] + b;
      CleanConcat(a[1..], b);
    }
  }

  /** A line contributes its stripped text exactly when that text is not empty. */
  lemma CleanLine(a: seq<string>, line: string, b: seq<string>)
    ensures Clean(a + [line] + b) == Clean(a) + (if Strip(line) == [] then [] else [Strip(line)]) + Clean(b)
  {
    var keep := if Strip(line) == [] then [] else [Strip(line)];
    assert Clean([line]) == keep by {
      assert [line][0] == line && [line][1..] == [];
      assert keep + [] == keep;
    }
    CleanConcat(a, [line]);
    CleanConcat(a + [line], b);
  }

  /** A word is kept exactly when it is the non-empty stripped text of some line. */
  lemma {:induction false} CleanMembers(lines: seq<string>, w: string)
    ensures w in Clean(lines) <==> w != [] && exists i :: 0 <= i < |lines| && Strip(lines[i]) == w
  {
    if lines != [] {
      CleanMembers(lines[1..], w);
      if exists i :: 0 <= i < |lines| && Strip(lines[i]) == w {
        var i :| 0 <= i < |lines| && Strip(lines[i]) == w;
        if i > 0 {
          assert Strip(lines[1..][i - 1]) == w;
        }
      }
      if exists i :: 0 <= i < |lines[1..]| && Strip(lines[1..][i]) == w {
        var i :| 0 <= i < |lines[1..]| && Strip(lines[1..][i]) == w;
        assert Strip(lines[i + 1]) == w;
      }
    }
  }

  /** `[word for word in words if word not in existing_translations]`. */
  function Remaining(words: seq<string>, existing: map<string, string>): (r: seq<string>)
    ensures |r| <= |words|
  {
    Filter(words, existing.Keys, false)
  }

  /** The remaining words are exactly the words without a translation, in their order, and there
      are none exactly when every word already has a translation. */
  lemma RemainingFacts(words: seq<string>, existing: map<string, string>)
    ensures forall w :: w in Remaining(words, existing) <==> w in words && w !in existing
    ensures Remaining(words, existing) == [] <==> forall w :: w in words ==> w in existing
    ensures forall a, b :: words == a + b ==> Remaining(words, existing) == Remaining(a, existing) + Remaining(b, existing)
  {
    FilterMembers(words, existing.Keys, false);
    var r := Remaining(words, existing);
    if r != [] {
      assert r[0] in r;
    }
    forall a, b | words == a + b
      ensures Remaining(words, existing) == Remaining(a, existing) + Remaining(b, existing)
    {
      FilterConcat(a, b, existing.Keys, false);
    }
  }

  /** Python's `a // b` for b != 0: the quotient rounded towards negative infinity. */
  function FloorDiv(a: int, b: int): (q: int)
    requires b != 0
    ensures b > 0 ==> q * b <= a < q * b + b
    ensures b < 0 ==> q * b >= a > q * b + b
  {
    if b > 0 then a / b else (-a) / (-b)
  }

  /** `max(1, min(batch_size, len(remaining_words) // (threads * 2) + 1))`; `None` stands for the
      ZeroDivisionError raised when `threads` is 0. */
  function BatchSize(requested: int, n: nat, threads: int): (r: Option<int>)
    ensures r.None? <==> threads == 0
    ensures r.Some? ==> r.value >= 1
    ensures r.Some? && requested >= 1 ==> r.value <= requested
    ensures r.Some? ==> r.value == 1 || r.value == requested || r.value == FloorDiv(n, threads * 2) + 1
  {
    if threads == 0 then None
    else Some(Max(1, Min(requested, FloorDiv(n, threads * 2) + 1)))
  }

  /** `[s[i:i + k] for i in range(0, len(s), k)]`: consecutive slices of k elements, the last
      one possibly shorter. */
  function Batches<T>(s: seq<T>, k: nat): (bs: seq<seq<T>>)
    requires k >= 1
    decreases |s|
  {
    if s == [] then []
    else if |s| <= k then [s]
    else [s[..k]] + Batches(s[k..], k)
  }

  /** Every batch holds between 1 and k elements, all but the last exactly k. */
  lemma {:induction false} BatchesSizes<T>(s: seq<T>, k: nat)
    requires k >= 1
    ensures var bs := Batches(s, k);
            && (forall j :: 0 <= j < |bs| ==> 1 <= |bs[j]| <= k)
            && (forall j :: 0 <= j < |bs| - 1 ==> |bs[j]| == k)
    decreases |s|
  {
    if |s| > k {
      BatchesSizes(s[k..], k);
      var bs := Batches(s, k);
      assert forall j :: 1 <= j < |bs| ==> bs[j] == Batches(s[k..], k)[j - 1];
    }
  }

  /** The batches are the slices `s[j*k : j*k + k]` of Python's list comprehension. */
  lemma {:induction false} BatchesAt<T>(s: seq<T>, k: nat, j: nat)
    requires k >= 1 && j < |Batches(s, k)|
    ensures j * k < |s| && Batches(s, k)[j] == s[j * k..Min(j * k + k, |s|)]
    decreases |s|
  {
    if |s| > k && j > 0 {
      BatchesAt(s[k..], k, j - 1);
      assert (j - 1) * k + k == j * k;
      assert s[k..][(j - 1) * k..Min((j - 1) * k + k, |s| - k)] == s[j * k..Min(j * k + k, |s|)];
    }
  }

  /** Concatenating the batches gives the input back. */
  lemma {:induction false} BatchesFlatten<T>(s: seq<T>, k: nat)
    requires k >= 1
    ensures Flatten(Batches(s, k)) == s
    decreases |s|
  {
    if s == [] {
    } else if |s| <= k {
      FlattenCons(s, []);
      assert s + [] == s;
    } else {
      BatchesFlatten(s[k..], k);
      FlattenCons(s[..k], Batches(s[k..], k));
      assert s[..k] + s[k..] == s;
    }
  }

  /** There are ceil(|s| / k) batches: the last one starts before the end of s, and together
      they reach it. */
  lemma {:induction false} BatchesCount<T>(s: seq<T>, k: nat)
    requires k >= 1
    ensures var m := |Batches(s, k)|;
            && (s == [] <==> m == 0)
            && (m > 0 ==> (m - 1) * k < |s| <= m * k)
    decreases |s|
  {
    if |s| > k {
      BatchesCount(s[k..], k);
      var m := |Batches(s[k..], k)|;
      assert (m + 1 - 1) * k == (m - 1) * k + k;
      assert (m + 1) * k == m * k + k;
    }
  }

  /** A first batch of k elements, or of all of them, is followed by the batches of the rest. */
  lemma BatchesCons<T>(b: seq<T>, rest: seq<T>, k: nat)
    requires k >= 1 && b != [] && |b| == Min(k, |b + rest|)
    ensures Batches(b + rest, k) == [b] + Batches(rest, k)
  {
    if |b + rest| <= k {
      assert rest == [] && b + rest == b;
    } else {
      assert (b + rest)[..k] == b && (b + rest)[k..] == rest;
    }
  }
}
