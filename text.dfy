/** Python string operations the two scripts rely on: `str.strip`, `sep.join` and `str.split(sep)`. */
module Text {

  /** Python's `str.isspace` on one character: the characters `str.strip()` removes. */
  predicate IsSpace(c: char) {
    var k := c as int;
    if k < 0x80 then k == 0x20 || 0x09 <= k <= 0x0D || 0x1C <= k <= 0x1F
    else k in SPACE_CODES
  }

  /** The code points above ASCII that Python counts as whitespace. */
  const SPACE_CODES: set<int> := {0x85, 0xA0, 0x1680, 0x2000, 0x2001, 0x2002, 0x2003, 0x2004, 0x2005,
                                 0x2006, 0x2007, 0x2008, 0x2009, 0x200A, 0x2028, 0x2029, 0x202F,
                                 0x205F, 0x3000}

  /** The number of whitespace characters at the start of `s`. */
  function LeadingSpaces(s: string): (n: nat)
    ensures n <= |s|
    ensures n < |s| ==> !IsSpace(s[n])
  {
    if s != [] && IsSpace(s[0]) then 1 + LeadingSpaces(s[1..]) else 0
  }

  /** The number of whitespace characters at the end of `s`. */
  function TrailingSpaces(s: string): (n: nat)
    ensures n <= |s|
    ensures n < |s| ==> !IsSpace(s[|s| - 1 - n])
  {
    if s != [] && IsSpace(s[|s| - 1]) then 1 + TrailingSpaces(s[..|s| - 1]) else 0
  }

  /** The characters counted by `LeadingSpaces` are whitespace. */
  lemma {:induction false} LeadingAreSpaces(s: string)
    ensures forall i :: 0 <= i < LeadingSpaces(s) ==> IsSpace(s[i])
  {
    if s != [] && IsSpace(s[0]) {
      LeadingAreSpaces(s[1..]);
      assert forall i :: 1 <= i < LeadingSpaces(s) ==> s[i] == s[1..][i - 1];
    }
  }

  /** The characters counted by `TrailingSpaces` are whitespace. */
  lemma {:induction false} TrailingAreSpaces(s: string)
    ensures forall i :: |s| - TrailingSpaces(s) <= i < |s| ==> IsSpace(s[i])
  {
    if s != [] && IsSpace(s[|s| - 1]) {
      TrailingAreSpaces(s[..|s| - 1]);
      assert forall i :: |s| - TrailingSpaces(s) <= i < |s| - 1 ==> s[i] == s[..|s| - 1][i];
    }
  }

  /** Python's `s.strip()`: `s` without the whitespace at both ends. */
  function Strip(s: string): string {
    var lo := LeadingSpaces(s);
    if lo == |s| then []
    else
      var hi := |s| - TrailingSpaces(s);
      assert lo < hi by {
        TrailingAreSpaces(s);
        assert !IsSpace(s[lo]);
      }
      s[lo..hi]
  }

  /** The stripped text neither starts nor ends with whitespace, and it is the slice of `s` that
      follows the leading whitespace and is followed only by whitespace. */
  lemma StripFacts(s: string)
    ensures var r, lo := Strip(s), LeadingSpaces(s);
            && (r == [] || (!IsSpace(r[0]) && !IsSpace(r[|r| - 1])))
            && lo + |r| <= |s| && r == s[lo..lo + |r|]
            && (forall i :: lo + |r| <= i < |s| ==> IsSpace(s[i]))
  {
    var lo := LeadingSpaces(s);
    if lo < |s| {
      var hi := |s| - TrailingSpaces(s);
      TrailingAreSpaces(s);
      assert !IsSpace(s[lo]);
      assert lo < hi && Strip(s) == s[lo..hi];
      assert s[lo..hi][0] == s[lo] && s[lo..hi][hi - lo - 1] == s[hi - 1];
    }
  }

  /** Stripping twice changes nothing more. */
  lemma StripIdempotent(s: string)
    ensures Strip(Strip(s)) == Strip(s)
  {
    StripFacts(s);
    var r := Strip(s);
    assert LeadingSpaces(r) == 0;
    assert TrailingSpaces(r) == 0;
  }

  /** A line as `readlines()` yields it can hold a line feed only as its last character;
      stripping such a line leaves no line feed at all. */
  lemma StripRemovesNewline(s: string)
    requires s == [] || '\n' !in s[..|s| - 1]
    ensures '\n' !in Strip(s)
  {
    StripFacts(s);
    var r := Strip(s);
    var lo := LeadingSpaces(s);
    if r != [] {
      forall k | 0 <= k < |r| ensures r[k] != '\n' {
        assert r[k] == s[lo + k];
        if lo + k == |s| - 1 {
          assert k == |r| - 1;
        } else {
          assert s[lo + k] == s[..|s| - 1][lo + k];
        }
      }
    }
  }

  /** Python's `sep.join(ws)`. */
  function Join(ws: seq<string>, sep: string): string {
    if ws == [] then []
    else if |ws| == 1 then ws[0]
    else ws[0] + sep + Join(ws[1..], sep)
  }

  /** Python's `s.split(sep)` for a non-empty separator, continuing a piece `cur` already begun:
      the text is scanned left to right and every non-overlapping occurrence of `sep` ends a piece. */
  function SplitFrom(s: string, sep: string, cur: string): (r: seq<string>)
    requires |sep| > 0
    ensures |r| >= 1
    decreases |s|
  {
    if |s| < |sep| then [cur + s]
    else if s[..|sep|] == sep then [cur] + SplitFrom(s[|sep|..], sep, [])
    else SplitFrom(s[1..], sep, cur + [s[0]])
  }

  /** Python's `s.split(sep)`; Python refuses an empty separator. */
  function Split(s: string, sep: string): seq<string>
    requires |sep| > 0
  {
    SplitFrom(s, sep, [])
  }

  lemma {:induction false} JoinSplitFrom(s: string, sep: string, cur: string)
    requires |sep| > 0
    ensures Join(SplitFrom(s, sep, cur), sep) == cur + s
    decreases |s|
  {
    if |s| < |sep| {
    } else if s[..|sep|] == sep {
      var rest := SplitFrom(s[|sep|..], sep, []);
      JoinSplitFrom(s[|sep|..], sep, []);
      assert ([cur] + rest)[1..] == rest;
      assert s == sep + s[|sep|..];
    } else {
      JoinSplitFrom(s[1..], sep, cur + [s[0]]);
      assert s == [s[0]] + s[1..];
    }
  }

  /** Splitting loses nothing: joining the pieces again gives back the text. */
  lemma JoinSplit(s: string, sep: string)
    requires |sep| > 0
    ensures Join(Split(s, sep), sep) == s
  {
    JoinSplitFrom(s, sep, []);
  }

  /** A piece that cannot start the separator is scanned through without a cut. */
  lemma {:induction false} SplitSkipsPiece(w: string, t: string, sep: string, cur: string)
    requires |sep| > 0 && sep[0] !in w
    ensures SplitFrom(w + t, sep, cur) == SplitFrom(t, sep, cur + w)
    decreases |w|
  {
    if w == [] {
      assert w + t == t && cur + w == cur;
    } else {
      var s := w + t;
      if |s| < |sep| {
        assert cur + s == (cur + w) + t;
      } else {
        assert s[..|sep|][0] == w[0];
        assert s[1..] == w[1..] + t;
        SplitSkipsPiece(w[1..], t, sep, cur + [w[0]]);
        assert cur + [w[0]] + w[1..] == cur + w;
      }
    }
  }

  /** Joining a non-empty list and splitting again gives the list back, provided no element
      contains the first character of the separator. */
  lemma {:induction false} SplitJoin(ws: seq<string>, sep: string)
    requires |sep| > 0 && |ws| >= 1
    requires forall w :: w in ws ==> sep[0] !in w
    ensures Split(Join(ws, sep), sep) == ws
  {
    if |ws| == 1 {
      SplitSkipsPiece(ws[0], [], sep, []);
      assert ws[0] + [] == ws[0] && [] + ws[0] == ws[0];
      assert SplitFrom([], sep, ws[0]) == [ws[0] + []];
    } else {
      var rest := Join(ws[1..], sep);
      assert Join(ws, sep) == ws[0] + (sep + rest);
      SplitSkipsPiece(ws[0], sep + rest, sep, []);
      assert [] + ws[0] == ws[0];
      assert (sep + rest)[..|sep|] == sep;
      assert (sep + rest)[|sep|..] == rest;
      SplitJoin(ws[1..], sep);
      assert ws == [ws[0]] + ws[1..];
    }
  }
}
