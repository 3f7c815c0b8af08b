/**
 * Search results of the sample player.  While a search job runs, every
 * "<title>#<duration>#<id>.info.json" file the helper writes is turned into a
 * result: ".info.json" is removed, the rest is split on '#', and with at least
 * three pieces the last is the id, the one before it the length, and all the
 * others, glued together without their '#', the name.  A result is added only
 * when no listed result has its id yet.
 */
module SearchResults {
  import opened Outcomes

  /** One search hit; the length is kept as the text the file name carries. */
  datatype SearchResult = SearchResult(name: string, lengthText: string, id: string)

  const InfoSuffix: string := ".info.json"
  const Delimiter: char := '#'

  /** Replacing every occurrence of `pat` by nothing, scanning left to right. */
  function RemoveAll(s: string, pat: string): (r: string)
    requires |pat| > 0
    ensures |r| <= |s|
    decreases |s|
  {
    if |s| < |pat| then s
    else if s[..|pat|] == pat then RemoveAll(s[|pat|..], pat)
    else [s[0]] + RemoveAll(s[1..], pat)
  }

  /** A string that cannot start an occurrence of `pat` anywhere is left alone. */
  lemma {:induction false} RemoveAllUntouched(s: string, pat: string)
    requires |pat| > 0 && pat[0] !in s
    ensures RemoveAll(s, pat) == s
  {
    if |s| >= |pat| {
      assert s[..|pat|][0] == s[0];
      RemoveAllUntouched(s[1..], pat);
    }
  }

  /** `pat` occurs nowhere in `s`. */
  predicate Free(s: string, pat: string)
    requires |pat| > 0
    decreases |s|
  {
    |s| < |pat| || (s[..|pat|] != pat && Free(s[1..], pat))
  }

  /** No proper prefix of `pat` is also a suffix of it, so two occurrences can never overlap. */
  predicate Borderless(pat: string)
  {
    forall k :: 0 < k < |pat| ==> pat[k..] != pat[..|pat| - k]
  }

  /** ".info.json" overlaps itself nowhere: its last letter 'n' recurs only at index 2, and ".in" is not "son". */
  lemma InfoSuffixBorderless()
    ensures Borderless(InfoSuffix)
  {
    forall k | 0 < k < |InfoSuffix|
      ensures InfoSuffix[k..] != InfoSuffix[..|InfoSuffix| - k]
    {
      if k == 7 {
        assert InfoSuffix[k..][0] == 's' && InfoSuffix[..|InfoSuffix| - k][0] == '.';
      } else {
        assert InfoSuffix[k..][|InfoSuffix| - k - 1] == 'n';
        assert InfoSuffix[..|InfoSuffix| - k][|InfoSuffix| - k - 1] != 'n';
      }
    }
  }

  /** A borderless suffix is removed from a name in which it does not occur, and nothing else is. */
  lemma {:induction false} RemoveSuffix(s: string, pat: string)
    requires |pat| > 0 && Borderless(pat) && Free(s, pat)
    ensures RemoveAll(s + pat, pat) == s
  {
    if s == [] {
      assert (s + pat)[..|pat|] == pat;
      assert (s + pat)[|pat|..] == [];
    } else {
      if |s| >= |pat| {
        assert (s + pat)[..|pat|] == s[..|pat|];
      } else {
        var k := |s|;
        assert pat[k..] != pat[..|pat| - k];
        assert (s + pat)[..|pat|][k..] == pat[..|pat| - k];
      }
      assert s + pat == [s[0]] + (s[1..] + pat);
      RemoveSuffix(s[1..], pat);
    }
  }

  /** ofSplitString(s, d) with its defaults: every delimiter splits, empty pieces are kept. */
  function Split(s: string, d: char): (tokens: seq<string>)
    ensures |tokens| >= 1
    ensures forall k :: 0 <= k < |tokens| ==> d !in tokens[k]
  {
    if s == [] then [[]]
    else
      assert s == [s[0]] + s[1..];
      var rest := Split(s[1..], d);
      if s[0] == d then [[]] + rest else [[s[0]] + rest[0]] + rest[1..]
  }

  /** There is one more piece than there are delimiters. */
  lemma {:induction false} SplitCount(s: string, d: char)
    ensures |Split(s, d)| == multiset(s)[d] + 1
  {
    if s != [] {
      SplitCount(s[1..], d);
      assert s == [s[0]] + s[1..];
      assert multiset(s) == multiset([s[0]]) + multiset(s[1..]);
    }
  }

  /** The pieces put back together with the delimiter between them. */
  function Join(tokens: seq<string>, d: char): string
    requires |tokens| > 0
  {
    if |tokens| == 1 then tokens[0] else tokens[0] + [d] + Join(tokens[1..], d)
  }

  /** All pieces glued together with nothing between them. */
  function Concat(tokens: seq<string>): string
  {
    if tokens == [] then [] else tokens[0] + Concat(tokens[1..])
  }

  /** `s` with every `d` taken out. */
  function Without(s: string, d: char): (r: string)
  {
    if s == [] then []
    else if s[0] == d then Without(s[1..], d)
    else [s[0]] + Without(s[1..], d)
  }

  lemma {:induction false} WithoutHasNoDelimiter(s: string, d: char)
    ensures d !in Without(s, d)
  {
    if s != [] {
      WithoutHasNoDelimiter(s[1..], d);
    }
  }

  /** Splitting and joining again gives the string back. */
  lemma {:induction false} JoinSplit(s: string, d: char)
    ensures Join(Split(s, d), d) == s
  {
    if s != [] {
      JoinSplit(s[1..], d);
      var rest := Split(s[1..], d);
      if s[0] == d {
        JoinEmptyFirst(rest, d);
      } else {
        JoinExtendFirst(s[0], rest, d);
      }
      assert [s[0]] + s[1..] == s;
    }
  }

  /** An empty first piece contributes only its delimiter. */
  lemma JoinEmptyFirst(tokens: seq<string>, d: char)
    requires |tokens| > 0
    ensures Join([[]] + tokens, d) == [d] + Join(tokens, d)
  {
    var all := [[]] + tokens;
    assert all[0] == [] && all[1..] == tokens;
  }

  /** A character put in front of the first piece comes first in the joined string. */
  lemma JoinExtendFirst(c: char, tokens: seq<string>, d: char)
    requires |tokens| > 0
    ensures Join([[c] + tokens[0]] + tokens[1..], d) == [c] + Join(tokens, d)
  {
    var all := [[c] + tokens[0]] + tokens[1..];
    assert all[0] == [c] + tokens[0] && all[1..] == tokens[1..];
    if |tokens| > 1 {
      assert Join(all, d) == [c] + tokens[0] + [d] + Join(tokens[1..], d);
    }
  }

  /** A string without the delimiter is one piece. */
  lemma {:induction false} SplitWithoutDelimiter(t: string, d: char)
    requires d !in t
    ensures Split(t, d) == [t]
  {
    if t != [] {
      SplitWithoutDelimiter(t[1..], d);
      assert [t[0]] + t[1..] == t;
    }
  }

  /** Splitting at a delimiter splits the two sides independently. */
  lemma {:induction false} SplitAppend(a: string, b: string, d: char)
    ensures Split(a + [d] + b, d) == Split(a, d) + Split(b, d)
  {
    if a == [] {
      assert a + [d] + b == [d] + b;
      assert ([d] + b)[1..] == b;
    } else {
      assert (a + [d] + b)[1..] == a[1..] + [d] + b;
      SplitAppend(a[1..], b, d);
    }
  }

  /** Joining pieces free of the delimiter and splitting again gives the pieces back. */
  lemma {:induction false} SplitJoin(tokens: seq<string>, d: char)
    requires |tokens| > 0
    requires forall k :: 0 <= k < |tokens| ==> d !in tokens[k]
    ensures Split(Join(tokens, d), d) == tokens
  {
    SplitWithoutDelimiter(tokens[0], d);
    if |tokens| > 1 {
      SplitJoin(tokens[1..], d);
      SplitAppend(tokens[0], Join(tokens[1..], d), d);
    }
  }

  /** Gluing the pieces of `s` is `s` without its delimiters. */
  lemma {:induction false} ConcatSplit(s: string, d: char)
    ensures Concat(Split(s, d)) == Without(s, d)
  {
    if s != [] {
      ConcatSplit(s[1..], d);
      var rest := Split(s[1..], d);
      if s[0] != d {
        assert Concat(rest) == rest[0] + Concat(rest[1..]);
      }
    }
  }

  /** The pieces of a name: `.info.json` removed, then split on '#'. */
  function FileNameTokens(file: string): seq<string>
  {
    Split(RemoveAll(file, InfoSuffix), Delimiter)
  }

  /** The filename parse of Poll: a result when there are at least three pieces. */
  function ParseResultFileName(file: string): (r: Option<SearchResult>)
    ensures r.Some? <==> multiset(RemoveAll(file, InfoSuffix))[Delimiter] >= 2
    ensures r.Some? ==> Delimiter !in r.value.lengthText && Delimiter !in r.value.id
  {
    var tokens := FileNameTokens(file);
    SplitCount(RemoveAll(file, InfoSuffix), Delimiter);
    var n := |tokens|;
    if n >= 3 then Some(SearchResult(Concat(tokens[..n - 2]), tokens[n - 2], tokens[n - 1])) else None
  }

  /** The name of a parsed result is everything before the last two '#', with its own '#' dropped. */
  lemma ParsedNameDropsDelimiters(file: string)
    requires ParseResultFileName(file).Some?
    ensures Delimiter !in ParseResultFileName(file).value.name
  {
    var tokens := FileNameTokens(file);
    var n := |tokens|;
    var front := tokens[..n - 2];
    assert ParseResultFileName(file).value.name == Concat(front);
    assert forall k :: 0 <= k < |front| ==> Delimiter !in front[k] by {
      forall k | 0 <= k < |front|
        ensures Delimiter !in front[k]
      {
        assert front[k] == tokens[k];
      }
    }
    var joined := Join(front, Delimiter);
    SplitJoin(front, Delimiter);
    ConcatSplit(joined, Delimiter);
    WithoutHasNoDelimiter(joined, Delimiter);
  }

  /** The stem the search helper writes splits into the title's pieces, the length and the id. */
  lemma SplitStem(title: string, len: string, id: string)
    requires Delimiter !in len && Delimiter !in id
    ensures Split(title + [Delimiter] + len + [Delimiter] + id, Delimiter) == Split(title, Delimiter) + [len, id]
  {
    var tail := len + [Delimiter] + id;
    assert Split(tail, Delimiter) == [len, id] by {
      SplitAppend(len, id, Delimiter);
      SplitWithoutDelimiter(len, Delimiter);
      SplitWithoutDelimiter(id, Delimiter);
    }
    assert title + [Delimiter] + len + [Delimiter] + id == title + [Delimiter] + tail;
    SplitAppend(title, tail, Delimiter);
  }

  /** The name the search helper writes for a hit parses back to that hit, minus '#' in its title. */
  lemma ParseWrittenName(title: string, len: string, id: string)
    requires Free(title + [Delimiter] + len + [Delimiter] + id, InfoSuffix)
    requires Delimiter !in len && Delimiter !in id
    ensures ParseResultFileName(title + [Delimiter] + len + [Delimiter] + id + InfoSuffix)
         == Some(SearchResult(Without(title, Delimiter), len, id))
  {
    var stem := title + [Delimiter] + len + [Delimiter] + id;
    assert RemoveAll(stem + InfoSuffix, InfoSuffix) == stem by {
      InfoSuffixBorderless();
      RemoveSuffix(stem, InfoSuffix);
    }
    var tokens := Split(stem, Delimiter);
    assert tokens == Split(title, Delimiter) + [len, id] by {
      SplitStem(title, len, id);
    }
    assert tokens[..|tokens| - 2] == Split(title, Delimiter);
    ConcatSplit(title, Delimiter);
  }

  /** Some listed result carries `id`. */
  predicate HasId(results: seq<SearchResult>, id: string)
  {
    exists k :: 0 <= k < |results| && results[k].id == id
  }

  /** No two listed results share an id. */
  predicate UniqueIds(results: seq<SearchResult>)
  {
    forall i, j :: 0 <= i < j < |results| ==> results[i].id != results[j].id
  }

  /** One step of Poll's scan: append the file's result unless its id is already listed. */
  function AddParsed(results: seq<SearchResult>, file: string): seq<SearchResult>
  {
    match ParseResultFileName(file)
    case None => results
    case Some(entry) => if HasId(results, entry.id) then results else results + [entry]
  }

  /** Poll's scan over a directory listing, in listing order. */
  function Merge(results: seq<SearchResult>, files: seq<string>): seq<SearchResult>
    decreases |files|
  {
    if files == [] then results else Merge(AddParsed(results, files[0]), files[1..])
  }

  /** The list only grows: what was listed stays listed, unmodified and in place. */
  lemma {:induction false} MergeExtends(results: seq<SearchResult>, files: seq<string>)
    ensures results <= Merge(results, files)
    decreases |files|
  {
    if files != [] {
      MergeExtends(AddParsed(results, files[0]), files[1..]);
    }
  }

  /** Merging never lists an id twice. */
  lemma {:induction false} MergeKeepsIdsUnique(results: seq<SearchResult>, files: seq<string>)
    requires UniqueIds(results)
    ensures UniqueIds(Merge(results, files))
    decreases |files|
  {
    if files != [] {
      MergeKeepsIdsUnique(AddParsed(results, files[0]), files[1..]);
    }
  }

  /** Every id that some file of the listing parses to is listed afterwards. */
  lemma {:induction false} MergeFindsEveryId(results: seq<SearchResult>, files: seq<string>, k: nat)
    requires k < |files| && ParseResultFileName(files[k]).Some?
    ensures HasId(Merge(results, files), ParseResultFileName(files[k]).value.id)
    decreases |files|
  {
    var next := AddParsed(results, files[0]);
    if k == 0 {
      var id := ParseResultFileName(files[0]).value.id;
      assert HasId(next, id) by {
        if !HasId(results, id) {
          assert next[|results|].id == id;
        }
      }
      MergeExtends(next, files[1..]);
      var w :| 0 <= w < |next| && next[w].id == id;
      assert Merge(next, files[1..])[w].id == id;
    } else {
      MergeFindsEveryId(next, files[1..], k - 1);
    }
  }

  /** Every newly listed result is the parse of some file of the listing. */
  lemma {:induction false} MergeAddsOnlyParsed(results: seq<SearchResult>, files: seq<string>, j: nat)
    requires |results| <= j < |Merge(results, files)|
    ensures exists k :: 0 <= k < |files| && ParseResultFileName(files[k]) == Some(Merge(results, files)[j])
    decreases |files|
  {
    var next := AddParsed(results, files[0]);
    if j < |next| {
      MergeExtends(next, files[1..]);
      assert ParseResultFileName(files[0]) == Some(Merge(results, files)[j]);
    } else {
      MergeAddsOnlyParsed(next, files[1..], j);
      var k :| 0 <= k < |files[1..]| && ParseResultFileName(files[1..][k]) == Some(Merge(next, files[1..])[j]);
      assert files[1..][k] == files[k + 1];
    }
  }

  /** Adding a file lists no id but the listed ones and the file's own. */
  lemma AddParsedIds(results: seq<SearchResult>, file: string, id: string)
    requires HasId(AddParsed(results, file), id)
    ensures HasId(results, id) || (ParseResultFileName(file).Some? && ParseResultFileName(file).value.id == id)
  {
    var added := AddParsed(results, file);
    var k :| 0 <= k < |added| && added[k].id == id;
    if k < |results| {
      assert results[k].id == id;
    }
  }

  /** For a new id, the first file of the listing that carries it decides the listed name and length. */
  lemma {:induction false} FirstOccurrenceWins(results: seq<SearchResult>, files: seq<string>, k: nat)
    requires k < |files| && ParseResultFileName(files[k]).Some?
    requires !HasId(results, ParseResultFileName(files[k]).value.id)
    requires forall i :: 0 <= i < k && ParseResultFileName(files[i]).Some?
               ==> ParseResultFileName(files[i]).value.id != ParseResultFileName(files[k]).value.id
    ensures ParseResultFileName(files[k]).value in Merge(results, files)
    decreases |files|
  {
    var entry := ParseResultFileName(files[k]).value;
    var next := AddParsed(results, files[0]);
    if k == 0 {
      assert next == results + [entry];
      MergeExtends(next, files[1..]);
      assert Merge(next, files[1..])[|results|] == entry;
    } else {
      if HasId(next, entry.id) {
        AddParsedIds(results, files[0], entry.id);
        assert false;
      }
      forall i | 0 <= i < k - 1 && ParseResultFileName(files[1..][i]).Some?
        ensures ParseResultFileName(files[1..][i]).value.id != ParseResultFileName(files[1..][k - 1]).value.id
      {
        assert files[1..][i] == files[i + 1];
      }
      FirstOccurrenceWins(next, files[1..], k - 1);
    }
  }

  /** The duplicate check of Poll: scan every listed result for the id. */
  method ContainsId(results: seq<SearchResult>, id: string) returns (found: bool)
    ensures found == HasId(results, id)
  {
    found := false;
    for k := 0 to |results|
      invariant found <==> exists j :: 0 <= j < k && results[j].id == id
    {
      if results[k].id == id {
        found := true;
      }
    }
  }
}
