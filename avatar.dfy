/** The drink picture lookup's name normalisation: a drink name becomes a
    resource name of lower-case letters, digits and single underscores, and
    three spellings of it are tried in turn. */
module Avatar {
  import opened Lists
  import opened Text

  /** The characters `[a-z0-9]`. */
  predicate IsAlnum(c: char) {
    'a' <= c <= 'z' || '0' <= c <= '9'
  }

  /** The characters a normalised name is made of. */
  predicate IsNameChar(c: char) {
    IsAlnum(c) || c == '_'
  }

  /** A resource name as normalisation produces it: only `[a-z0-9_]`, no
      `_` at either end, and no two `_` in a row. */
  predicate IsResourceName(s: string) {
    && (forall i :: 0 <= i < |s| ==> IsNameChar(s[i]))
    && (s != [] ==> s[0] != '_' && s[|s| - 1] != '_')
    && (forall i :: 0 <= i < |s| - 1 ==> !(s[i] == '_' && s[i + 1] == '_'))
  }

  /** `s` without its leading characters outside `[a-z0-9]`. */
  function DropNonAlnum(s: string): (r: string)
    ensures |r| <= |s| && r == s[|s| - |r|..]
    ensures r != [] ==> IsAlnum(r[0])
    ensures forall k :: 0 <= k < |s| - |r| ==> !IsAlnum(s[k])
  {
    if s == [] || IsAlnum(s[0]) then s else DropNonAlnum(s[1..])
  }

  /** `replace(Regex("[^a-z0-9]+"), "_")`: every maximal run of characters
      outside `[a-z0-9]` becomes one `_`. */
  function ReplaceRuns(s: string): (r: string)
    ensures forall i :: 0 <= i < |r| ==> IsNameChar(r[i])
    ensures forall i :: 0 <= i < |r| - 1 ==> !(r[i] == '_' && r[i + 1] == '_')
    decreases |s|
  {
    if s == [] then []
    else if IsAlnum(s[0]) then [s[0]] + ReplaceRuns(s[1..])
    else
      var rest := DropNonAlnum(s[1..]);
      var tail := ReplaceRuns(rest);
      assert rest != [] ==> tail != [] && tail[0] == rest[0];
      "_" + tail
  }

  /** Index `i` of `s` starts a maximal run of characters outside
      `[a-z0-9]`. */
  predicate RunStart(s: string, i: nat)
    requires i < |s|
  {
    !IsAlnum(s[i]) && (i == 0 || IsAlnum(s[i - 1]))
  }

  /** What character `i` of `s` turns into, read off its neighbourhood: a
      character of `[a-z0-9]` stays, the first character of a run becomes
      one `_`, and the rest of the run vanishes. */
  function Piece(s: string, i: nat): string
    requires i < |s|
  {
    if IsAlnum(s[i]) then [s[i]] else if RunStart(s, i) then "_" else ""
  }

  /** The pieces of the characters from index `i` on, in order. */
  function Pieces(s: string, i: nat): string
    requires i <= |s|
    decreases |s| - i
  {
    if i == |s| then "" else Piece(s, i) + Pieces(s, i + 1)
  }

  /** Run replacement is the character-by-character reference: every
      maximal run outside `[a-z0-9]` becomes exactly one `_` where it
      starts, and every other character is kept in place. */
  lemma {:induction false} ReplaceRunsByPieces(s: string)
    ensures ReplaceRuns(s) == Pieces(s, 0)
    decreases |s|
  {
    if s == [] {
    } else if IsAlnum(s[0]) {
      ReplaceRunsAlnumHead(s);
      ReplaceRunsByPieces(s[1..]);
      PiecesShift(s, 1, 1);
    } else {
      var rest := DropNonAlnum(s[1..]);
      var j := |s| - |rest|;
      ReplaceRunsRunHead(s);
      ReplaceRunsByPieces(rest);
      assert rest == s[j..];
      forall k | 0 <= k < j ensures !IsAlnum(s[k]) {
        if k > 0 {
          assert s[k] == s[1..][k - 1];
        }
      }
      PiecesSkipRun(s, 1, j);
      PiecesShift(s, j, j);
    }
  }

  /** The pieces from index `i` on do not look further back than `i - 1`,
      so a suffix starting at `m` gives the same ones when the character at
      `m` turns into the same piece on its own. */
  lemma {:induction false} PiecesShift(s: string, m: nat, i: nat)
    requires m <= i <= |s|
    requires i == m && m < |s| ==> m == 0 || IsAlnum(s[m]) || IsAlnum(s[m - 1])
    ensures Pieces(s, i) == Pieces(s[m..], i - m)
    decreases |s| - i
  {
    if i < |s| {
      PieceShift(s, m, i);
      PiecesShift(s, m, i + 1);
    }
  }

  lemma PieceShift(s: string, m: nat, i: nat)
    requires m <= i < |s|
    requires i == m ==> m == 0 || IsAlnum(s[m]) || IsAlnum(s[m - 1])
    ensures Piece(s, i) == Piece(s[m..], i - m)
  {
    var t := s[m..];
    assert t[i - m] == s[i];
    if i > m {
      assert t[i - m - 1] == s[i - 1];
    }
  }

  /** Inside a run the characters after its first vanish. */
  lemma {:induction false} PiecesSkipRun(s: string, i: nat, j: nat)
    requires 1 <= i <= j <= |s|
    requires forall k :: i - 1 <= k < j ==> !IsAlnum(s[k])
    ensures Pieces(s, i) == Pieces(s, j)
    decreases j - i
  {
    if i < j {
      PiecesSkipRun(s, i + 1, j);
    }
  }

  /** Run replacement keeps the characters of `[a-z0-9]`, in order, and adds
      only `_`. */
  lemma {:induction false} ReplaceRunsKeepsAlnum(s: string)
    ensures RemoveChar(ReplaceRuns(s), '_') == Filter(s, IsAlnum)
    decreases |s|
  {
    if s == [] {
    } else if IsAlnum(s[0]) {
      ReplaceRunsKeepsAlnum(s[1..]);
      KeepsAlnumHead(s);
    } else {
      ReplaceRunsKeepsAlnum(DropNonAlnum(s[1..]));
      KeepsAlnumRun(s);
    }
  }

  lemma KeepsAlnumHead(s: string)
    requires s != [] && IsAlnum(s[0])
    requires RemoveChar(ReplaceRuns(s[1..]), '_') == Filter(s[1..], IsAlnum)
    ensures RemoveChar(ReplaceRuns(s), '_') == Filter(s, IsAlnum)
  {
    ReplaceRunsAlnumHead(s);
    RemoveCharAppend([s[0]], ReplaceRuns(s[1..]), '_');
    RemoveCharOne(s[0], '_');
  }

  lemma KeepsAlnumRun(s: string)
    requires s != [] && !IsAlnum(s[0])
    requires RemoveChar(ReplaceRuns(DropNonAlnum(s[1..])), '_') == Filter(DropNonAlnum(s[1..]), IsAlnum)
    ensures RemoveChar(ReplaceRuns(s), '_') == Filter(s, IsAlnum)
  {
    var rest := DropNonAlnum(s[1..]);
    ReplaceRunsRunHead(s);
    RemoveCharAppend("_", ReplaceRuns(rest), '_');
    RemoveCharOne('_', '_');
    FilterSkipsRun(s);
  }

  /** The characters a run drops are not kept by the filter either. */
  lemma FilterSkipsRun(s: string)
    requires s != [] && !IsAlnum(s[0])
    ensures Filter(s, IsAlnum) == Filter(DropNonAlnum(s[1..]), IsAlnum)
  {
    assert Filter(s, IsAlnum) == Filter(s[1..], IsAlnum);
    FilterOfDrop(s[1..]);
  }

  lemma {:induction false} FilterOfDrop(t: string)
    ensures Filter(t, IsAlnum) == Filter(DropNonAlnum(t), IsAlnum)
  {
    if t != [] && !IsAlnum(t[0]) {
      assert Filter(t, IsAlnum) == Filter(t[1..], IsAlnum);
      FilterOfDrop(t[1..]);
    }
  }

  /** The number of `_` at the start of `s`. */
  function LeadingUnderscores(s: string): (n: nat)
    ensures n <= |s|
    ensures n < |s| ==> s[n] != '_'
    ensures forall i :: 0 <= i < n ==> s[i] == '_'
  {
    if s == [] || s[0] != '_' then 0 else 1 + LeadingUnderscores(s[1..])
  }

  /** The number of `_` at the end of `s`. */
  function TrailingUnderscores(s: string): (n: nat)
    ensures n <= |s|
    ensures n < |s| ==> s[|s| - 1 - n] != '_'
    ensures forall i :: |s| - n <= i < |s| ==> s[i] == '_'
  {
    if s == [] || s[|s| - 1] != '_' then 0 else 1 + TrailingUnderscores(s[..|s| - 1])
  }

  /** `trim('_')`: `s` without the `_` at both ends. */
  function TrimUnderscores(s: string): (r: string)
    ensures r != [] ==> r[0] != '_' && r[|r| - 1] != '_'
    ensures LeadingUnderscores(s) + |r| <= |s|
    ensures r == s[LeadingUnderscores(s)..LeadingUnderscores(s) + |r|]
  {
    var a := LeadingUnderscores(s);
    if a == |s| then []
    else
      var b := TrailingUnderscores(s);
      s[a..|s| - b]
  }

  /** The resource name of a drink name. */
  function Normalize(coffee: string): (r: string)
    ensures IsResourceName(r)
    ensures RemoveChar(r, '_') == Filter(ToLower(Trim(coffee)), IsAlnum)
  {
    var lowered := ToLower(Trim(coffee));
    var replaced := ReplaceRuns(lowered);
    TrimUnderscoresGivesName(replaced);
    ReplaceRunsKeepsAlnum(lowered);
    TrimUnderscoresKeeps(replaced);
    TrimUnderscores(replaced)
  }

  /** Trimming the `_` off the ends removes only `_`. */
  lemma TrimUnderscoresKeeps(s: string)
    ensures RemoveChar(TrimUnderscores(s), '_') == RemoveChar(s, '_')
  {
    var a := LeadingUnderscores(s);
    var e := TrimmedEnd(s);
    assert s == s[..a] + s[a..e] + s[e..];
    RemoveCharBetween(s[..a], s[a..e], s[e..], '_');
  }

  /** Removing `c` from a middle part between two runs of `c`. */
  lemma RemoveCharBetween(head: string, mid: string, tail: string, c: char)
    requires forall i :: 0 <= i < |head| ==> head[i] == c
    requires forall i :: 0 <= i < |tail| ==> tail[i] == c
    ensures RemoveChar(head + mid + tail, c) == RemoveChar(mid, c)
  {
    RemoveCharAppend(head + mid, tail, c);
    RemoveCharAppend(head, mid, c);
    RemoveCharNone(head, c);
    RemoveCharNone(tail, c);
  }

  /** Where the trimmed string ends in `s`: only `_` follow. */
  lemma TrimmedEnd(s: string) returns (e: nat)
    ensures LeadingUnderscores(s) + |TrimUnderscores(s)| == e <= |s|
    ensures TrimUnderscores(s) == s[LeadingUnderscores(s)..e]
    ensures forall i :: e <= i < |s| ==> s[i] == '_'
  {
    var a := LeadingUnderscores(s);
    if a == |s| {
      e := |s|;
    } else {
      var b := TrailingUnderscores(s);
      e := |s| - b;
    }
  }

  /** Trimming the `_` off a string of `[a-z0-9_]` without `__` gives a
      resource name. */
  lemma TrimUnderscoresGivesName(s: string)
    requires forall i :: 0 <= i < |s| ==> IsNameChar(s[i])
    requires forall i :: 0 <= i < |s| - 1 ==> !(s[i] == '_' && s[i + 1] == '_')
    ensures IsResourceName(TrimUnderscores(s))
  {
    var r := TrimUnderscores(s);
    var a := LeadingUnderscores(s);
    assert forall i :: 0 <= i < |r| ==> r[i] == s[a + i];
  }

  /** Every character of a resource name survives trimming, lower-casing,
      run replacement and `_` trimming unchanged. */
  lemma {:induction false} ReplaceRunsOfName(s: string)
    requires forall i :: 0 <= i < |s| ==> IsNameChar(s[i])
    requires forall i :: 0 <= i < |s| - 1 ==> !(s[i] == '_' && s[i + 1] == '_')
    ensures ReplaceRuns(s) == s
  {
    if s != [] {
      if IsAlnum(s[0]) {
        ReplaceRunsOfName(s[1..]);
      } else {
        assert s[1..] != [] ==> IsAlnum(s[1]);
        assert DropNonAlnum(s[1..]) == s[1..];
        ReplaceRunsOfName(s[1..]);
      }
    }
  }

  /** Normalising a resource name gives it back, so normalising is
      idempotent. */
  lemma NormalizeOfName(s: string)
    requires IsResourceName(s)
    ensures Normalize(s) == s
  {
    TrimOfName(s);
    LowerOfName(s);
    ReplaceRunsOfName(s);
    TrimUnderscoresOfName(s);
  }

  lemma TrimOfName(s: string)
    requires IsResourceName(s)
    ensures Trim(s) == s
  {
    if s != [] {
      assert !IsWhitespace(s[0]) && !IsWhitespace(s[|s| - 1]);
      assert LeadingWhitespace(s) == 0;
      assert TrailingWhitespace(s) == 0;
    }
  }

  lemma LowerOfName(s: string)
    requires IsResourceName(s)
    ensures ToLower(s) == s
  {
    assert forall i :: 0 <= i < |s| ==> LowerChar(s[i]) == s[i];
  }

  lemma TrimUnderscoresOfName(s: string)
    requires IsResourceName(s)
    ensures TrimUnderscores(s) == s
  {
    if s != [] {
      assert LeadingUnderscores(s) == 0;
      assert TrailingUnderscores(s) == 0;
    }
  }

  lemma NormalizeIdempotent(coffee: string)
    ensures Normalize(Normalize(coffee)) == Normalize(coffee)
  {
    NormalizeOfName(Normalize(coffee));
  }

  /** `replace(from, to)` for single characters. */
  function ReplaceChar(s: string, from: char, to: char): (r: string)
    ensures |r| == |s|
    ensures forall i :: 0 <= i < |s| ==> r[i] == (if s[i] == from then to else s[i])
  {
    MapSeq(s, (c: char) => if c == from then to else c)
  }

  /** `replace(c, "")`: every `c` removed. */
  function RemoveChar(s: string, c: char): (r: string)
    ensures c !in r
    ensures forall x :: x in r <==> x in s && x != c
  {
    Filter(s, (x: char) => x != c)
  }

  /** Removal distributes over concatenation. */
  lemma RemoveCharAppend(a: string, b: string, c: char)
    ensures RemoveChar(a + b, c) == RemoveChar(a, c) + RemoveChar(b, c)
  {
    FilterAppend(a, b, (x: char) => x != c);
  }

  /** A single character is removed exactly when it is `c`. */
  lemma RemoveCharOne(x: char, c: char)
    ensures RemoveChar([x], c) == if x == c then [] else [x]
  {
  }

  /** A string made only of `c` is removed entirely. */
  lemma RemoveCharNone(s: string, c: char)
    requires forall i :: 0 <= i < |s| ==> s[i] == c
    ensures RemoveChar(s, c) == []
  {
    FilterNone(s, (x: char) => x != c);
  }

  /** The names tried in turn: the resource name, without its underscores,
      and with dashes for underscores, each once. */
  function Candidates(name: string): (r: seq<string>)
    ensures 1 <= |r| <= 3 && r[0] == name
    ensures forall i, j :: 0 <= i < j < |r| ==> r[i] != r[j]
    ensures forall x :: x in r <==> x in [name, RemoveChar(name, '_'), ReplaceChar(name, '_', '-')]
  {
    var all := [name, RemoveChar(name, '_'), ReplaceChar(name, '_', '-')];
    var r := Distinct(all);
    assert all[0] in r;
    assert r[0] == name by {
      DistinctHead(all);
    }
    r
  }

  /** A name without `_` is its own only candidate. */
  lemma CandidatesWithoutUnderscore(name: string)
    requires '_' !in name
    ensures Candidates(name) == [name]
  {
    assert RemoveChar(name, '_') == name by {
      FilterAll(name, (x: char) => x != '_');
    }
    assert ReplaceChar(name, '_', '-') == name;
    assert [name, name][..1] == [name];
    assert [name, name, name][..2] == [name, name];
    assert Distinct([name, name]) == [name];
  }

  /** A name with a `_` has three different candidates, tried in the
      order the resource name, without underscores, with dashes. */
  lemma CandidatesWithUnderscore(name: string)
    requires '_' in name
    ensures Candidates(name) == [name, RemoveChar(name, '_'), ReplaceChar(name, '_', '-')]
  {
    SpellingsDiffer(name);
    DistinctOfThree(name, RemoveChar(name, '_'), ReplaceChar(name, '_', '-'));
  }

  /** With a `_` in the name, its three spellings are pairwise different:
      removal shortens it, and the dash replaces a `_`. */
  lemma SpellingsDiffer(name: string)
    requires '_' in name
    ensures RemoveChar(name, '_') != name
    ensures ReplaceChar(name, '_', '-') != name
    ensures RemoveChar(name, '_') != ReplaceChar(name, '_', '-')
  {
    var j :| 0 <= j < |name| && name[j] == '_';
    FilterShorter(name, (x: char) => x != '_', j);
    assert ReplaceChar(name, '_', '-')[j] != name[j];
  }

  /** A string with no whitespace at either end is its own trim. */
  lemma TrimKeeps(s: string)
    requires s != [] && !IsWhitespace(s[0]) && !IsWhitespace(s[|s| - 1])
    ensures Trim(s) == s
  {
    assert LeadingWhitespace(s) == 0;
    assert TrailingWhitespace(s) == 0;
  }

  /** Two words of `[a-z0-9]` joined by one space are joined by one `_`. */
  lemma {:induction false} ReplaceRunsTwoWords(a: string, b: string)
    requires forall i :: 0 <= i < |a| ==> IsAlnum(a[i])
    requires b != [] && forall i :: 0 <= i < |b| ==> IsAlnum(b[i])
    ensures ReplaceRuns(a + " " + b) == a + "_" + b
  {
    var spaced := " " + b;
    calc {
      ReplaceRuns(a + " " + b);
      { assert a + " " + b == a + spaced; }
      ReplaceRuns(a + spaced);
      { ReplaceRunsPrefix(a, spaced); }
      a + ReplaceRuns(spaced);
      { ReplaceRunsOfName(b); ReplaceRunsSpaceWord(b); }
      a + ("_" + b);
      a + "_" + b;
    }
  }

  /** A space before a word of `[a-z0-9]` becomes one `_`. */
  lemma ReplaceRunsSpaceWord(b: string)
    requires b != [] && IsAlnum(b[0]) && ReplaceRuns(b) == b
    ensures ReplaceRuns(" " + b) == "_" + b
  {
    var spaced := " " + b;
    assert !IsAlnum(spaced[0]) && spaced[1..] == b;
    ReplaceRunsRunHead(spaced);
    DropNonAlnumOfWord(b);
  }

  lemma DropNonAlnumOfWord(b: string)
    requires b != [] && IsAlnum(b[0])
    ensures DropNonAlnum(b) == b
  {
  }

  /** A leading run outside `[a-z0-9]` becomes one `_`. */
  lemma ReplaceRunsRunHead(s: string)
    requires s != [] && !IsAlnum(s[0])
    ensures ReplaceRuns(s) == "_" + ReplaceRuns(DropNonAlnum(s[1..]))
  {
  }

  /** Run replacement passes a prefix of `[a-z0-9]` through unchanged. */
  lemma {:induction false} ReplaceRunsPrefix(a: string, b: string)
    requires forall i :: 0 <= i < |a| ==> IsAlnum(a[i])
    ensures ReplaceRuns(a + b) == a + ReplaceRuns(b)
    decreases |a|
  {
    if a != [] {
      var ab := a + b;
      assert ab[0] == a[0] && ab[1..] == a[1..] + b;
      ReplaceRunsAlnumHead(ab);
      ReplaceRunsPrefix(a[1..], b);
      assert [a[0]] + a[1..] == a;
    } else {
      assert a + b == b;
    }
  }

  /** A leading `[a-z0-9]` character is passed through. */
  lemma ReplaceRunsAlnumHead(s: string)
    requires s != [] && IsAlnum(s[0])
    ensures ReplaceRuns(s) == [s[0]] + ReplaceRuns(s[1..])
  {
  }

  /** "Flat White" has the resource name flat_white. */
  lemma FlatWhiteName()
    ensures Normalize("Flat White") == "flat_white"
  {
    FlatWhiteLowered();
    FlatWhiteReplaced();
    FlatWhiteTrimmed();
  }

  lemma FlatWhiteLowered()
    ensures ToLower(Trim("Flat White")) == "flat white"
  {
    TrimKeeps("Flat White");
    assert ToLower("Flat White") == "flat white";
  }

  lemma FlatWhiteReplaced()
    ensures ReplaceRuns("flat white") == "flat_white"
  {
    ReplaceRunsTwoWords("flat", "white");
    assert "flat white" == "flat" + " " + "white";
    assert "flat" + "_" + "white" == "flat_white";
  }

  lemma FlatWhiteTrimmed()
    ensures TrimUnderscores("flat_white") == "flat_white"
  {
    assert IsResourceName("flat_white");
    TrimUnderscoresOfName("flat_white");
  }

  /** flat_white has three candidates. */
  lemma FlatWhiteCandidates()
    ensures Candidates("flat_white") == ["flat_white", RemoveChar("flat_white", '_'), ReplaceChar("flat_white", '_', '-')]
  {
    assert "flat_white"[4] == '_';
    CandidatesWithUnderscore("flat_white");
  }
}
