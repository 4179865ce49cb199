/** Query generation and file naming of the autocomplete crawler (GoogleAutoCompleteSuggestions.py). */
module Autocomplete {
  import opened Common

  /** Each first letter heads a family of 26 letter queries followed by 10 digit queries. */
  const FAMILY: nat := 36
  const QUERY_COUNT: nat := 26 * FAMILY

  predicate IsLower(c: char) { 'a' <= c <= 'z' }

  predicate IsDigit(c: char) { '0' <= c <= '9' }

  /** `chr(97 + k)`. */
  function Letter(k: nat): (c: char)
    requires k < 26
    ensures IsLower(c)
  {
    (('a' as int) + k) as char
  }

  /** The decimal digit `k` as `f"{k}"` writes it. */
  function Digit(k: nat): (c: char)
    requires k < 10
    ensures IsDigit(c)
  {
    (('0' as int) + k) as char
  }

  /** The second character of the k-th query of a family: a letter for k < 26, then a digit. */
  function SecondChar(k: nat): char
    requires k < FAMILY
  {
    if k < 26 then Letter(k) else Digit(k - 26)
  }

  /** The position of a second character within its family: letters first, then digits. */
  function Rank(c: char): int {
    if IsLower(c) then c as int - 'a' as int else 26 + c as int - '0' as int
  }

  /** `f"{root_word} {c1}{c2}"`. */
  function Query(root: string, c1: char, c2: char): string {
    root + " " + [c1, c2]
  }

  /** The queries in generation order: query i has first letter i / 36 and second character i % 36. */
  function AllQueries(root: string): (qs: seq<string>)
    ensures |qs| == QUERY_COUNT
  {
    seq(QUERY_COUNT, i requires 0 <= i < QUERY_COUNT => Query(root, Letter(i / FAMILY), SecondChar(i % FAMILY)))
  }

  /** The nested loops of the crawler's main function that fill `all_queries`. */
  method GenerateQueries(root: string) returns (all: seq<string>)
    ensures all == AllQueries(root)
  {
    all := [];
    for first := 0 to 26
      invariant |all| == FAMILY * first
      invariant forall j :: 0 <= j < |all| ==> all[j] == AllQueries(root)[j]
    {
      for second := 0 to 26
        invariant |all| == FAMILY * first + second
        invariant forall j :: 0 <= j < |all| ==> all[j] == AllQueries(root)[j]
      {
        assert (FAMILY * first + second) / FAMILY == first && (FAMILY * first + second) % FAMILY == second;
        all := all + [Query(root, Letter(first), Letter(second))];
      }
      for num := 0 to 10
        invariant |all| == FAMILY * first + 26 + num
        invariant forall j :: 0 <= j < |all| ==> all[j] == AllQueries(root)[j]
      {
        assert (FAMILY * first + 26 + num) / FAMILY == first && (FAMILY * first + 26 + num) % FAMILY == 26 + num;
        all := all + [Query(root, Letter(first), Digit(num))];
      }
    }
  }

  /** Every query is the root, a space, a lower-case letter and a letter or digit. */
  lemma QueryShape(root: string, i: nat)
    requires i < QUERY_COUNT
    ensures var q := AllQueries(root)[i];
            && |q| == |root| + 3 && q[..|root| + 1] == root + " "
            && IsLower(q[|root| + 1])
            && (IsLower(q[|root| + 2]) || IsDigit(q[|root| + 2]))
  {
    var q := AllQueries(root)[i];
    assert q == (root + " ") + [Letter(i / FAMILY), SecondChar(i % FAMILY)];
  }

  /** Conversely, every such string is generated. */
  lemma QueryComplete(root: string, c1: char, c2: char)
    requires IsLower(c1) && (IsLower(c2) || IsDigit(c2))
    ensures Query(root, c1, c2) in AllQueries(root)
  {
    var k := Rank(c2);
    var i := FAMILY * (c1 as int - 'a' as int) + k;
    assert i / FAMILY == c1 as int - 'a' as int && i % FAMILY == k;
    assert Letter(i / FAMILY) == c1;
    assert SecondChar(i % FAMILY) == c2;
    assert AllQueries(root)[i] == Query(root, c1, c2);
  }

  /** Generation order: an earlier query has a smaller first letter, or the same first letter and
      a second character earlier in the family (every letter before every digit). */
  lemma QueryOrder(root: string, i: nat, j: nat)
    requires i < j < QUERY_COUNT
    ensures var p, q, n := AllQueries(root)[i], AllQueries(root)[j], |root|;
            || p[n + 1] < q[n + 1]
            || (p[n + 1] == q[n + 1] && Rank(p[n + 2]) < Rank(q[n + 2]))
  {
    var p, q, n := AllQueries(root)[i], AllQueries(root)[j], |root|;
    assert p[n + 1] == Letter(i / FAMILY) && p[n + 2] == SecondChar(i % FAMILY);
    assert q[n + 1] == Letter(j / FAMILY) && q[n + 2] == SecondChar(j % FAMILY);
    assert Rank(SecondChar(i % FAMILY)) == i % FAMILY;
    assert Rank(SecondChar(j % FAMILY)) == j % FAMILY;
    assert i / FAMILY < j / FAMILY || (i / FAMILY == j / FAMILY && i % FAMILY < j % FAMILY);
  }

  /** No query is generated twice. */
  lemma QueriesDistinct(root: string)
    ensures Distinct(AllQueries(root))
  {
    forall i, j | 0 <= i < j < QUERY_COUNT ensures AllQueries(root)[i] != AllQueries(root)[j] {
      QueryOrder(root, i, j);
    }
  }

  /** `root_word.replace(" ", "_")`: every space becomes an underscore and nothing else changes. */
  function SafeRootWord(root: string): (r: string)
    ensures |r| == |root|
    ensures forall i :: 0 <= i < |r| ==> r[i] == if root[i] == ' ' then '_' else root[i]
  {
    if root == [] then []
    else [if root[0] == ' ' then '_' else root[0]] + SafeRootWord(root[1..])
  }

  /** The progress file of a root word: `f'{root_word}_progress.json'`. */
  function ProgressFileName(root: string): string { root + "_progress.json" }

  /** The output file of a root word: `f'{safe_root_word}.txt'`. */
  function OutputFileName(root: string): string { SafeRootWord(root) + ".txt" }
}
