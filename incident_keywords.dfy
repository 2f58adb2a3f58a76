/**
 * The pattern analysis of the incident summary: the lower-cased incident
 * titles are split at whitespace, every piece longer than three characters
 * is counted in a plain object (`wordCounts[word] = (wordCounts[word] || 0) + 1`),
 * and the entries of that object counted more than once are listed, most
 * frequent first, at most five of them.
 *
 * The object is modelled as a map from word to count together with its
 * property keys in creation order. `Object.entries` lists the keys that are
 * array indices (canonical decimals below 2^32 - 1) first, by ascending
 * numeric value, and then the other keys in creation order; entries with
 * equal counts keep that order through the stable sort.
 */
module IncidentKeywords {
  import opened Text
  import opened Decimal
  import opened Sorting
  import opened Sequences
  import opened Backend

  /** Pieces of at most this many characters are not counted. */
  const ShortWordLength := 3
  /** At most this many recurring keywords are listed. */
  const KeywordLimit := 5

  /** A piece of a title that is counted. */
  predicate Counted(word: string) {
    |word| > ShortWordLength
  }

  /** The counted pieces of one lower-cased title, in order. */
  function TitleWords(title: string): seq<string> {
    Filter(SplitWhitespace(title), Counted)
  }

  /** `incidents.map(i => i.title.toLowerCase())`. */
  function LowerTitles(incidents: seq<Incident>): (r: seq<string>)
    ensures |r| == |incidents|
    ensures forall k | 0 <= k < |r| :: r[k] == ToLower(incidents[k].title)
  {
    seq(|incidents|, k requires 0 <= k < |incidents| => ToLower(incidents[k].title))
  }

  /** Every counted piece of the titles, title after title, in the order the nested loops visit them. */
  function CountedWords(titles: seq<string>): seq<string>
    decreases |titles|
  {
    if titles == [] then [] else CountedWords(titles[..|titles| - 1]) + TitleWords(titles[|titles| - 1])
  }

  /** Only pieces longer than three characters are counted, and each of them is. */
  lemma {:induction false} CountedWordsMembers(titles: seq<string>)
    ensures forall k | 0 <= k < |CountedWords(titles)| :: Counted(CountedWords(titles)[k])
    ensures forall w :: w in CountedWords(titles) <==> exists t | t in titles :: w in SplitWhitespace(t) && Counted(w)
    decreases |titles|
  {
    if titles != [] {
      var init := titles[..|titles| - 1];
      var last := titles[|titles| - 1];
      CountedWordsMembers(init);
      FilterMembers(SplitWhitespace(last), Counted);
      assert titles == init + [last];
      forall w ensures w in CountedWords(titles) <==> exists t | t in titles :: w in SplitWhitespace(t) && Counted(w) {
        if w in TitleWords(last) {
          assert last in titles;
        }
        if exists t | t in titles :: w in SplitWhitespace(t) && Counted(w) {
          var t :| t in titles && w in SplitWhitespace(t) && Counted(w);
          if t != last {
            assert t in init;
          }
        }
      }
    }
  }

  /** The visit of one more title appends its counted pieces. */
  lemma CountedWordsSnoc(titles: seq<string>, i: nat)
    requires i < |titles|
    ensures CountedWords(titles[..i + 1]) == CountedWords(titles[..i]) + TitleWords(titles[i])
  {
    assert titles[..i + 1][..i] == titles[..i];
  }

  /** The word counts object: the count of each word and the order in which its properties were created. */
  datatype WordCounts = WordCounts(counts: map<string, nat>, keys: seq<string>)

  /** The count of `w`, or 0 when the object has no such property (`wordCounts[word] || 0`). */
  function Lookup(counts: map<string, nat>, w: string): nat {
    if w in counts then counts[w] else 0
  }

  /** One counted occurrence of `w`; a word seen for the first time becomes the last property. */
  function Record(t: WordCounts, w: string): WordCounts {
    WordCounts(t.counts[w := Lookup(t.counts, w) + 1], if w in t.counts then t.keys else t.keys + [w])
  }

  /** The object after counting `words` in order, starting from `{}`. */
  function Tally(words: seq<string>): (r: WordCounts)
    ensures |r.keys| <= |words|
    decreases |words|
  {
    if words == [] then WordCounts(map[], []) else Record(Tally(words[..|words| - 1]), words[|words| - 1])
  }

  lemma TallySnoc(words: seq<string>, w: string)
    ensures Tally(words + [w]) == Record(Tally(words), w)
  {
    assert (words + [w])[..|words|] == words;
  }

  /**
   * What the object holds after counting `words`: a property for each word
   * that occurs and for no other, its value the number of occurrences, and
   * every property exactly once in the key order.
   */
  ghost predicate CountsOf(t: WordCounts, words: seq<string>) {
    && (forall w :: w in t.counts <==> w in words)
    && (forall w | w in t.counts :: t.counts[w] == multiset(words)[w])
    && (forall w :: w in t.keys <==> w in words)
    && Distinct(t.keys)
  }

  lemma {:induction false} TallyCounts(words: seq<string>)
    ensures CountsOf(Tally(words), words)
    decreases |words|
  {
    if words != [] {
      var init := words[..|words| - 1];
      var w := words[|words| - 1];
      TallyCounts(init);
      assert words == init + [w];
      assert multiset(words) == multiset(init) + multiset{w};
      var t := Tally(init);
      if w !in t.counts {
        assert w !in t.keys;
        assert Distinct(t.keys + [w]);
      }
    }
  }

  /** The position of the first occurrence of `w` in `s`. */
  function FirstIndex(s: seq<string>, w: string): (i: nat)
    requires w in s
    ensures i < |s| && s[i] == w && w !in s[..i]
  {
    if s[0] == w then 0
    else
      assert w in s[1..];
      var i := FirstIndex(s[1..], w);
      assert s[..i + 1] == [s[0]] + s[1..][..i];
      i + 1
  }

  lemma FirstIndexUnique(s: seq<string>, w: string, j: nat)
    requires j < |s| && s[j] == w && w !in s[..j]
    ensures FirstIndex(s, w) == j
  {
    var i := FirstIndex(s, w);
  }

  /** Appending keeps the first occurrence of a word already present. */
  lemma FirstIndexSnoc(s: seq<string>, x: string, w: string)
    requires w in s
    ensures w in s + [x] && FirstIndex(s + [x], w) == FirstIndex(s, w)
  {
    var i := FirstIndex(s, w);
    assert (s + [x])[..i] == s[..i];
    FirstIndexUnique(s + [x], w, i);
  }

  /** `u` occurs in `s` before the first occurrence of `v`. */
  predicate SeenBefore(s: seq<string>, u: string, v: string) {
    u in s && v in s && FirstIndex(s, u) < FirstIndex(s, v)
  }

  /** The properties are in the order in which their words first occur. */
  lemma {:induction false} TallyKeyOrder(words: seq<string>)
    ensures forall a, b | 0 <= a < b < |Tally(words).keys| :: SeenBefore(words, Tally(words).keys[a], Tally(words).keys[b])
    decreases |words|
  {
    if words != [] {
      var init := words[..|words| - 1];
      var w := words[|words| - 1];
      TallyKeyOrder(init);
      TallyCounts(init);
      assert words == init + [w];
      var keys := Tally(init).keys;
      var keys' := Tally(words).keys;
      forall a, b | 0 <= a < b < |keys'| ensures SeenBefore(words, keys'[a], keys'[b]) {
        assert keys'[a] in keys;
        FirstIndexSnoc(init, w, keys'[a]);
        if b < |keys| {
          FirstIndexSnoc(init, w, keys'[b]);
          assert SeenBefore(init, keys[a], keys[b]);
        } else {
          assert keys'[b] == w && w !in init;
          FirstIndexUnique(words, w, |init|);
        }
      }
    }
  }

  /** A property key that `Object.entries` lists first: a canonical decimal below 2^32 - 1. */
  predicate IsArrayIndex(k: string) {
    IsCanonicalDecimal(k) && ValueIn(k, 10) < 0xFFFF_FFFF
  }

  predicate NotArrayIndex(k: string) {
    !IsArrayIndex(k)
  }

  /** The numeric value of an array index key. */
  function IndexValue(k: string): int {
    if IsArrayIndex(k) then ValueIn(k, 10) else 0
  }

  /** The order of `Object.entries`: array index keys by value, then the other keys in creation order. */
  function EnumerationOrder(keys: seq<string>): (r: seq<string>)
    ensures |r| == |keys|
  {
    FilterPartition(keys, IsArrayIndex, NotArrayIndex);
    assert |multiset(Filter(keys, IsArrayIndex))| + |multiset(Filter(keys, NotArrayIndex))| == |multiset(keys)|;
    SortBy(Filter(keys, IsArrayIndex), IndexValue) + Filter(keys, NotArrayIndex)
  }

  /** The enumeration lists every key exactly as often as the object has it. */
  lemma EnumerationPermutes(keys: seq<string>)
    ensures multiset(EnumerationOrder(keys)) == multiset(keys)
  {
    FilterPartition(keys, IsArrayIndex, NotArrayIndex);
  }

  /**
   * Array index keys come before all others and by ascending value; the
   * other keys keep their creation order.
   */
  lemma EnumerationIndicesFirst(keys: seq<string>)
    ensures var e := EnumerationOrder(keys);
            forall i, j | 0 <= i < j < |e| && IsArrayIndex(e[j]) :: IsArrayIndex(e[i]) && IndexValue(e[i]) <= IndexValue(e[j])
    ensures Filter(EnumerationOrder(keys), NotArrayIndex) == Filter(keys, NotArrayIndex)
  {
    var s := SortBy(Filter(keys, IsArrayIndex), IndexValue);
    var n := Filter(keys, NotArrayIndex);
    SortBySorted(Filter(keys, IsArrayIndex), IndexValue);
    FilterMembers(keys, IsArrayIndex);
    assert forall x | x in s :: IsArrayIndex(x) by {
      forall x | x in s ensures IsArrayIndex(x) {
        assert x in multiset(s);
      }
    }
    FilterAppend(s, n, NotArrayIndex);
    FilterNone(s, NotArrayIndex);
    FilterAll(n, NotArrayIndex);
    assert s + n == EnumerationOrder(keys);
    forall i, j | 0 <= i < j < |s + n| && IsArrayIndex((s + n)[j])
      ensures IsArrayIndex((s + n)[i]) && IndexValue((s + n)[i]) <= IndexValue((s + n)[j])
    {
      assert (s + n)[i] == s[i] && (s + n)[j] == s[j];
      assert s[i] in s;
    }
  }

  /** A word and its count, as `Object.entries` gives them. */
  type Keyword = (string, nat)

  /** The entries for `keys` in that order. */
  function Pairs(keys: seq<string>, counts: map<string, nat>): (r: seq<Keyword>)
    ensures |r| == |keys|
    ensures forall k | 0 <= k < |r| :: r[k] == (keys[k], Lookup(counts, keys[k]))
    decreases |keys|
  {
    if keys == [] then [] else [(keys[0], Lookup(counts, keys[0]))] + Pairs(keys[1..], counts)
  }

  /** `Object.entries(wordCounts)`. */
  function Entries(t: WordCounts): seq<Keyword> {
    Pairs(EnumerationOrder(t.keys), t.counts)
  }

  /** `count > 1`. */
  predicate IsRepeated(e: Keyword) {
    e.1 > 1
  }

  /** The sort key of `(a, b) => b[1] - a[1]`: a larger count sorts first. */
  function CountDescending(e: Keyword): int {
    -(e.1 as int)
  }

  /** The entries counted more than once, in enumeration order. */
  function RepeatedEntries(t: WordCounts): seq<Keyword> {
    Filter(Entries(t), IsRepeated)
  }

  /** The repeated entries, most frequent first. */
  function Ranked(t: WordCounts): seq<Keyword> {
    SortBy(RepeatedEntries(t), CountDescending)
  }

  /** `Object.entries(wordCounts).filter(...).sort(...).slice(0, 5)`. */
  function TopKeywords(t: WordCounts): (r: seq<Keyword>)
    ensures |r| <= KeywordLimit
  {
    Take(Ranked(t), KeywordLimit)
  }

  lemma PairsMembers(keys: seq<string>, counts: map<string, nat>)
    ensures forall e :: e in Pairs(keys, counts) <==> e.0 in keys && e.1 == Lookup(counts, e.0)
  {
    var r := Pairs(keys, counts);
    forall e ensures e in r <==> e.0 in keys && e.1 == Lookup(counts, e.0) {
      if e.0 in keys && e.1 == Lookup(counts, e.0) {
        var k :| 0 <= k < |keys| && keys[k] == e.0;
        assert r[k] == e;
      }
    }
  }

  /** The entries of an object that counts `words` are exactly the pairs of a word that occurs and its number of occurrences. */
  lemma EntriesMembers(t: WordCounts, words: seq<string>)
    requires CountsOf(t, words)
    ensures forall e :: e in Entries(t) <==> e.0 in words && e.1 == multiset(words)[e.0]
  {
    EnumerationPermutes(t.keys);
    PairsMembers(EnumerationOrder(t.keys), t.counts);
    forall w ensures w in EnumerationOrder(t.keys) <==> w in words {
      assert w in EnumerationOrder(t.keys) <==> w in multiset(EnumerationOrder(t.keys));
      assert w in t.keys <==> w in multiset(t.keys);
    }
  }

  /** The repeated entries, in either order, are the words occurring more than once with their counts. */
  lemma RankedMembers(t: WordCounts, words: seq<string>)
    requires CountsOf(t, words)
    ensures forall e :: e in RepeatedEntries(t) <==> e.0 in words && e.1 == multiset(words)[e.0] && e.1 > 1
    ensures forall e :: e in Ranked(t) <==> e.0 in words && e.1 == multiset(words)[e.0] && e.1 > 1
  {
    EntriesMembers(t, words);
    FilterMembers(Entries(t), IsRepeated);
    forall e ensures e in Ranked(t) <==> e in RepeatedEntries(t) {
      assert e in Ranked(t) <==> e in multiset(Ranked(t));
      assert e in RepeatedEntries(t) <==> e in multiset(RepeatedEntries(t));
    }
  }

  /** No entry occurs twice: the object has each key once. */
  lemma EntriesNoRepeats(t: WordCounts, words: seq<string>)
    requires CountsOf(t, words)
    ensures NoRepeats(Entries(t))
  {
    EnumerationPermutes(t.keys);
    var order := EnumerationOrder(t.keys);
    DistinctIffNoRepeats(t.keys);
    assert NoRepeats(order) by {
      forall k | 0 <= k < |order| ensures multiset(order)[order[k]] <= 1 {
        assert order[k] in multiset(t.keys);
        var m :| 0 <= m < |t.keys| && t.keys[m] == order[k];
      }
    }
    DistinctIffNoRepeats(order);
    var es := Entries(t);
    assert Distinct(es) by {
      forall i, j | 0 <= i < j < |es| ensures es[i] != es[j] {
        assert es[i].0 == order[i] && es[j].0 == order[j];
      }
    }
    DistinctIffNoRepeats(es);
  }

  /**
   * Every listed keyword occurs in the words, more than once, and with its
   * exact number of occurrences; at most five are listed.
   */
  lemma TopKeywordsSound(t: WordCounts, words: seq<string>)
    requires CountsOf(t, words)
    ensures |TopKeywords(t)| <= KeywordLimit
    ensures forall k | 0 <= k < |TopKeywords(t)| ::
              var e := TopKeywords(t)[k]; e.0 in words && e.1 == multiset(words)[e.0] && e.1 > 1
  {
    RankedMembers(t, words);
    forall k | 0 <= k < |TopKeywords(t)| ensures TopKeywords(t)[k] in Ranked(t) {
      assert TopKeywords(t)[k] == Ranked(t)[k];
    }
  }

  /** The keywords are listed by non-increasing count. */
  lemma TopKeywordsOrdered(t: WordCounts)
    ensures forall i, j | 0 <= i < j < |TopKeywords(t)| :: TopKeywords(t)[i].1 >= TopKeywords(t)[j].1
  {
    SortBySorted(RepeatedEntries(t), CountDescending);
    forall i, j | 0 <= i < j < |TopKeywords(t)| ensures TopKeywords(t)[i].1 >= TopKeywords(t)[j].1 {
      assert CountDescending(Ranked(t)[i]) <= CountDescending(Ranked(t)[j]);
    }
  }

  /**
   * Nothing more frequent is left out: a word occurring more than once that
   * is not listed means five keywords are listed, each occurring at least as
   * often as it.
   */
  lemma TopKeywordsComplete(t: WordCounts, words: seq<string>, w: string)
    requires CountsOf(t, words)
    requires multiset(words)[w] > 1
    requires forall k | 0 <= k < |TopKeywords(t)| :: TopKeywords(t)[k].0 != w
    ensures |TopKeywords(t)| == KeywordLimit
    ensures forall k | 0 <= k < KeywordLimit :: TopKeywords(t)[k].1 >= multiset(words)[w]
  {
    RankedMembers(t, words);
    assert w in multiset(words);
    var e: Keyword := (w, multiset(words)[w]);
    assert e in Ranked(t);
    var m :| 0 <= m < |Ranked(t)| && Ranked(t)[m] == e;
    assert m >= |TopKeywords(t)| by {
      assert forall k | 0 <= k < |TopKeywords(t)| :: TopKeywords(t)[k] == Ranked(t)[k];
    }
    SortBySorted(RepeatedEntries(t), CountDescending);
    forall k | 0 <= k < KeywordLimit ensures TopKeywords(t)[k].1 >= multiset(words)[w] {
      assert CountDescending(Ranked(t)[k]) <= CountDescending(Ranked(t)[m]);
    }
  }

  /** Some keyword is listed exactly when some word occurs more than once. */
  lemma TopKeywordsPresent(t: WordCounts, words: seq<string>)
    requires CountsOf(t, words)
    ensures |TopKeywords(t)| > 0 <==> exists k | 0 <= k < |words| :: multiset(words)[words[k]] > 1
  {
    TopKeywordsSound(t, words);
    if |TopKeywords(t)| > 0 {
      var k := FirstIndex(words, TopKeywords(t)[0].0);
    }
    if exists k | 0 <= k < |words| :: multiset(words)[words[k]] > 1 {
      var k :| 0 <= k < |words| && multiset(words)[words[k]] > 1;
      if forall j | 0 <= j < |TopKeywords(t)| :: TopKeywords(t)[j].0 != words[k] {
        TopKeywordsComplete(t, words, words[k]);
      }
    }
  }

  /** No word is listed twice. */
  lemma TopKeywordsDistinct(t: WordCounts, words: seq<string>)
    requires CountsOf(t, words)
    ensures forall i, j | 0 <= i < j < |TopKeywords(t)| :: TopKeywords(t)[i].0 != TopKeywords(t)[j].0
  {
    RankedNoRepeats(t, words);
    var top := TopKeywords(t);
    PrefixMultiset(Ranked(t), |top|);
    assert NoRepeats(top) by {
      forall k | 0 <= k < |top| ensures multiset(top)[top[k]] <= 1 {
        assert top[k] == Ranked(t)[k];
      }
    }
    DistinctIffNoRepeats(top);
    TopKeywordsSound(t, words);
  }

  lemma RankedNoRepeats(t: WordCounts, words: seq<string>)
    requires CountsOf(t, words)
    ensures NoRepeats(Ranked(t))
  {
    EntriesNoRepeats(t, words);
    FilterNoRepeats(Entries(t), IsRepeated);
    PermutationNoRepeats(RepeatedEntries(t), Ranked(t));
  }

  /** Keywords with equal counts keep the order in which `Object.entries` lists them. */
  lemma RankedTies(t: WordCounts, count: int)
    ensures WithKey(Ranked(t), CountDescending, -count) == WithKey(RepeatedEntries(t), CountDescending, -count)
  {
    RankedTiesOf(RepeatedEntries(t), Ranked(t), -count);
  }

  lemma RankedTiesOf(s: seq<Keyword>, r: seq<Keyword>, k: int)
    requires r == SortBy(s, CountDescending)
    ensures WithKey(r, CountDescending, k) == WithKey(s, CountDescending, k)
  {
    SortByStable(s, CountDescending, k);
  }

  /** The counted words of the incidents: the counted pieces of their lower-cased titles, in input order. */
  function IncidentWords(incidents: seq<Incident>): seq<string> {
    CountedWords(LowerTitles(incidents))
  }

  /** The recurring keywords the incident summary lists. */
  function Keywords(incidents: seq<Incident>): seq<Keyword> {
    TopKeywords(Tally(IncidentWords(incidents)))
  }

  /** One step of the inner loop on a counted piece: it is recorded. */
  lemma CountStepCounted(done: seq<string>, pieces: seq<string>, j: nat)
    requires j < |pieces| && Counted(pieces[j])
    ensures Tally(done + Filter(pieces[..j + 1], Counted)) == Record(Tally(done + Filter(pieces[..j], Counted)), pieces[j])
  {
    assert pieces[..j + 1] == pieces[..j] + [pieces[j]];
    FilterSnoc(pieces[..j], pieces[j], Counted);
    var before := Filter(pieces[..j], Counted);
    assert done + (before + [pieces[j]]) == (done + before) + [pieces[j]];
    TallySnoc(done + before, pieces[j]);
  }

  /** One step of the inner loop on a piece of at most three characters: it is skipped. */
  lemma CountStepSkipped(done: seq<string>, pieces: seq<string>, j: nat)
    requires j < |pieces| && !Counted(pieces[j])
    ensures Tally(done + Filter(pieces[..j + 1], Counted)) == Tally(done + Filter(pieces[..j], Counted))
  {
    assert pieces[..j + 1] == pieces[..j] + [pieces[j]];
    FilterSnoc(pieces[..j], pieces[j], Counted);
    assert Filter(pieces[..j], Counted) + [] == Filter(pieces[..j], Counted);
  }

  /** The loop over all pieces of a title counts its counted pieces. */
  lemma CountedAllPieces(done: seq<string>, pieces: seq<string>)
    ensures Tally(done + Filter(pieces[..|pieces|], Counted)) == Tally(done + Filter(pieces, Counted))
  {
    assert pieces[..|pieces|] == pieces;
  }

  /**
   * The inner `forEach` over the pieces of one title: every piece longer
   * than three characters adds one to its count. `done` stands for the
   * words counted before.
   */
  method CountPieces(ghost done: seq<string>, counts0: map<string, nat>, keys0: seq<string>, pieces: seq<string>)
    returns (counts: map<string, nat>, keys: seq<string>)
    requires WordCounts(counts0, keys0) == Tally(done)
    ensures WordCounts(counts, keys) == Tally(done + Filter(pieces, Counted))
  {
    counts, keys := counts0, keys0;
    var j := 0;
    assert done + Filter(pieces[..0], Counted) == done by {
      assert pieces[..0] == [];
    }
    while j < |pieces|
      invariant 0 <= j <= |pieces|
      invariant WordCounts(counts, keys) == Tally(done + Filter(pieces[..j], Counted))
    {
      var word := pieces[j];
      ghost var before := WordCounts(counts, keys);
      if |word| > ShortWordLength {
        if word !in counts {
          keys := keys + [word];
        }
        counts := counts[word := Lookup(counts, word) + 1];
        assert WordCounts(counts, keys) == Tally(done + Filter(pieces[..j + 1], Counted)) by {
          assert WordCounts(counts, keys) == Record(before, word);
          CountStepCounted(done, pieces, j);
        }
      } else {
        assert before == Tally(done + Filter(pieces[..j + 1], Counted)) by {
          CountStepSkipped(done, pieces, j);
        }
      }
      j := j + 1;
    }
    CountedAllPieces(done, pieces);
  }

  /** The outer `forEach` over the lower-cased titles. */
  method CountTitleWords(titleWords: seq<string>) returns (wordCounts: WordCounts)
    ensures wordCounts == Tally(CountedWords(titleWords))
  {
    var counts: map<string, nat> := map[];
    var keys: seq<string> := [];
    var i := 0;
    while i < |titleWords|
      invariant 0 <= i <= |titleWords|
      invariant WordCounts(counts, keys) == Tally(CountedWords(titleWords[..i]))
    {
      counts, keys := CountPieces(CountedWords(titleWords[..i]), counts, keys, SplitWhitespace(titleWords[i]));
      CountedWordsSnoc(titleWords, i);
      i := i + 1;
    }
    assert titleWords[..i] == titleWords;
    wordCounts := WordCounts(counts, keys);
  }

  /** The lower-cased titles of the example. */
  lemma ExampleLowerTitles(incidents: seq<Incident>)
    requires |incidents| == 3
    requires incidents[0].title == "Stalker followed me home"
    requires incidents[1].title == "Stalker called repeatedly"
    requires incidents[2].title == "He followed me again"
    ensures LowerTitles(incidents) == ["stalker followed me home", "stalker called repeatedly", "he followed me again"]
  {
    ExampleLower1();
    ExampleLower2();
    ExampleLower3();
  }

  lemma ExampleLower1()
    ensures ToLower("Stalker followed me home") == "stalker followed me home"
  {
  }

  lemma ExampleLower2()
    ensures ToLower("Stalker called repeatedly") == "stalker called repeatedly"
  {
  }

  lemma ExampleLower3()
    ensures ToLower("He followed me again") == "he followed me again"
  {
  }

  /** The counted pieces of the example titles. */
  lemma ExampleTitle1(title: string)
    requires title == "stalker followed me home"
    ensures TitleWords(title) == ["stalker", "followed", "home"]
  {
    var words := ["stalker", "followed", "me", "home"];
    ExampleJoin1(words);
    ExampleWords(words);
    ExampleFilter1(words);
  }

  /**
   * Joining the pieces of the first example title. Each example title has
   * its own instance over its own literals: the solver cannot relate a
   * join over variables to a title literal at an acceptable cost.
   */
  lemma ExampleJoin1(words: seq<string>)
    requires words == ["stalker", "followed", "me", "home"]
    ensures Join(words, " ") == "stalker followed me home"
  {
    assert Join(words[3..], " ") == "home";
    assert Join(words[2..], " ") == "me" + " " + "home" by { assert words[2..][1..] == words[3..]; }
    assert Join(words[1..], " ") == "followed" + " " + "me home" by { assert words[1..][1..] == words[2..]; }
  }

  lemma ExampleFilter1(words: seq<string>)
    requires words == ["stalker", "followed", "me", "home"]
    ensures Filter(words, Counted) == ["stalker", "followed", "home"]
  {
    assert words[3..][1..] == [];
    assert Filter(words[3..], Counted) == ["home"];
    assert Filter(words[2..], Counted) == ["home"] by { assert words[2..][1..] == words[3..]; }
    assert Filter(words[1..], Counted) == ["followed", "home"] by { assert words[1..][1..] == words[2..]; }
  }

  lemma ExampleTitle2(title: string)
    requires title == "stalker called repeatedly"
    ensures TitleWords(title) == ["stalker", "called", "repeatedly"]
  {
    var words := ["stalker", "called", "repeatedly"];
    ExampleJoin2(words);
    ExampleWords(words);
    ExampleFilter2(words);
  }

  lemma ExampleJoin2(words: seq<string>)
    requires words == ["stalker", "called", "repeatedly"]
    ensures Join(words, " ") == "stalker called repeatedly"
  {
    assert Join(words[2..], " ") == "repeatedly";
    assert Join(words[1..], " ") == "called" + " " + "repeatedly" by { assert words[1..][1..] == words[2..]; }
  }

  lemma ExampleFilter2(words: seq<string>)
    requires words == ["stalker", "called", "repeatedly"]
    ensures Filter(words, Counted) == words
  {
    assert words[2..][1..] == [];
    assert Filter(words[2..], Counted) == ["repeatedly"];
    assert Filter(words[1..], Counted) == ["called", "repeatedly"] by { assert words[1..][1..] == words[2..]; }
  }

  lemma ExampleTitle3(title: string)
    requires title == "he followed me again"
    ensures TitleWords(title) == ["followed", "again"]
  {
    var words := ["he", "followed", "me", "again"];
    ExampleJoin3(words);
    ExampleWords(words);
    ExampleFilter3(words);
  }

  /** Joining the pieces of the third example title; see `ExampleJoin1`. */
  lemma ExampleJoin3(words: seq<string>)
    requires words == ["he", "followed", "me", "again"]
    ensures Join(words, " ") == "he followed me again"
  {
    assert Join(words[3..], " ") == "again";
    assert Join(words[2..], " ") == "me" + " " + "again" by { assert words[2..][1..] == words[3..]; }
    assert Join(words[1..], " ") == "followed" + " " + "me again" by { assert words[1..][1..] == words[2..]; }
  }

  lemma ExampleFilter3(words: seq<string>)
    requires words == ["he", "followed", "me", "again"]
    ensures Filter(words, Counted) == ["followed", "again"]
  {
    assert words[3..][1..] == [];
    assert Filter(words[3..], Counted) == ["again"];
    assert Filter(words[2..], Counted) == ["again"] by { assert words[2..][1..] == words[3..]; }
    assert Filter(words[1..], Counted) == ["followed", "again"] by { assert words[1..][1..] == words[2..]; }
  }

  /** Words of lower-case letters joined by spaces split back into themselves. */
  lemma ExampleWords(words: seq<string>)
    requires words != []
    requires forall k | 0 <= k < |words| :: words[k] != [] && forall i | 0 <= i < |words[k]| :: 'a' <= words[k][i] <= 'z'
    ensures SplitWhitespace(Join(words, " ")) == words
  {
    forall k | 0 <= k < |words| ensures NoWhitespace(words[k]) {
      LettersNoWhitespace(words[k]);
    }
    SplitJoined(words);
  }

  /** Counting a word the object does not have yet adds it with count 1 as the last property. */
  lemma TallyNew(words: seq<string>, w: string, counts: map<string, nat>, keys: seq<string>)
    requires Tally(words) == WordCounts(counts, keys) && w !in counts
    ensures Tally(words + [w]) == WordCounts(counts[w := 1], keys + [w])
  {
    TallySnoc(words, w);
    assert Lookup(counts, w) == 0;
  }

  /** Counting a word the object has adds one to its count and leaves the keys alone. */
  lemma TallyAgain(words: seq<string>, w: string, counts: map<string, nat>, keys: seq<string>)
    requires Tally(words) == WordCounts(counts, keys) && w in counts
    ensures Tally(words + [w]) == WordCounts(counts[w := counts[w] + 1], keys)
  {
    TallySnoc(words, w);
  }

  /** The object after counting the first four of the example's words. */
  lemma ExampleTallyFour(a: string, b: string, c: string)
    requires a != b && a != c && b != c
    ensures Tally([a, b, c, a]) == WordCounts(map[a := 2, b := 1, c := 1], [a, b, c])
  {
    TallyNew([], a, map[], []);
    assert [] + [a] == [a];
    TallyNew([a], b, map[a := 1], [a]);
    assert [a] + [b] == [a, b];
    TallyNew([a, b], c, map[a := 1, b := 1], [a, b]);
    assert [a, b] + [c] == [a, b, c];
    TallyAgain([a, b, c], a, map[a := 1, b := 1, c := 1], [a, b, c]);
    assert [a, b, c] + [a] == [a, b, c, a];
  }

  /** The object after counting the example's words, with the words left abstract. */
  lemma ExampleTally(a: string, b: string, c: string, d: string, e: string, f: string)
    requires a != b && a != c && a != d && a != e && a != f
    requires b != c && b != d && b != e && b != f
    requires c != d && c != e && c != f
    requires d != e && d != f
    requires e != f
    ensures Tally([a, b, c, a, d, e, b, f]) == WordCounts(map[a := 2, b := 2, c := 1, d := 1, e := 1, f := 1], [a, b, c, d, e, f])
  {
    var w4 := [a, b, c, a];
    var w5 := w4 + [d];
    var w6 := w5 + [e];
    var w7 := w6 + [b];
    ExampleTallyFour(a, b, c);
    TallyNew(w4, d, map[a := 2, b := 1, c := 1], [a, b, c]);
    TallyNew(w5, e, map[a := 2, b := 1, c := 1, d := 1], [a, b, c, d]);
    TallyAgain(w6, b, map[a := 2, b := 1, c := 1, d := 1, e := 1], [a, b, c, d, e]);
    TallyNew(w7, f, map[a := 2, b := 2, c := 1, d := 1, e := 1], [a, b, c, d, e]);
    assert w7 + [f] == [a, b, c, a, d, e, b, f];
  }

  /** Without array index keys the entries follow the creation order. */
  lemma EntriesInCreationOrder(t: WordCounts)
    requires forall k | 0 <= k < |t.keys| :: NotArrayIndex(t.keys[k])
    ensures Entries(t) == Pairs(t.keys, t.counts)
  {
    FilterNone(t.keys, IsArrayIndex);
    FilterAll(t.keys, NotArrayIndex);
    assert EnumerationOrder(t.keys) == [] + t.keys;
  }

  /** The entries of the example's object. */
  lemma ExampleEntries(a: string, b: string, c: string, d: string, e: string, f: string)
    requires a != b && a != c && a != d && a != e && a != f
    requires b != c && b != d && b != e && b != f
    requires c != d && c != e && c != f
    requires d != e && d != f
    requires e != f
    ensures Pairs([a, b, c, d, e, f], map[a := 2, b := 2, c := 1, d := 1, e := 1, f := 1])
            == [(a, 2), (b, 2)] + [(c, 1), (d, 1), (e, 1), (f, 1)]
  {
    var r := Pairs([a, b, c, d, e, f], map[a := 2, b := 2, c := 1, d := 1, e := 1, f := 1]);
    assert r[0] == (a, 2) && r[1] == (b, 2);
    assert r[2] == (c, 1) && r[3] == (d, 1) && r[4] == (e, 1) && r[5] == (f, 1);
  }

  /** Of the example's entries the two counted twice are kept. */
  lemma ExampleRepeated(a: string, b: string, c: string, d: string, e: string, f: string)
    ensures Filter([(a, 2), (b, 2)] + [(c, 1), (d, 1), (e, 1), (f, 1)], IsRepeated) == [(a, 2), (b, 2)]
  {
    var top: seq<Keyword> := [(a, 2), (b, 2)];
    var rest: seq<Keyword> := [(c, 1), (d, 1), (e, 1), (f, 1)];
    FilterAppend(top, rest, IsRepeated);
    FilterAll(top, IsRepeated);
    FilterNone(rest, IsRepeated);
    assert top + [] == top;
  }

  /** The keywords of the example's object: the two words counted twice, in the order they first occur. */
  lemma ExampleTopKeywords(a: string, b: string, c: string, d: string, e: string, f: string)
    requires a != b && a != c && a != d && a != e && a != f
    requires b != c && b != d && b != e && b != f
    requires c != d && c != e && c != f
    requires d != e && d != f
    requires e != f
    requires NotArrayIndex(a) && NotArrayIndex(b) && NotArrayIndex(c)
    requires NotArrayIndex(d) && NotArrayIndex(e) && NotArrayIndex(f)
    ensures TopKeywords(Tally([a, b, c, a, d, e, b, f])) == [(a, 2), (b, 2)]
  {
    ExampleTally(a, b, c, d, e, f);
    var keys := [a, b, c, d, e, f];
    assert forall k | 0 <= k < |keys| :: NotArrayIndex(keys[k]);
    EntriesInCreationOrder(Tally([a, b, c, a, d, e, b, f]));
    ExampleEntries(a, b, c, d, e, f);
    ExampleRanking(Tally([a, b, c, a, d, e, b, f]), a, b, c, d, e, f);
  }

  lemma ExampleRanking(t: WordCounts, a: string, b: string, c: string, d: string, e: string, f: string)
    requires Entries(t) == [(a, 2), (b, 2)] + [(c, 1), (d, 1), (e, 1), (f, 1)]
    ensures TopKeywords(t) == [(a, 2), (b, 2)]
  {
    ExampleRepeated(a, b, c, d, e, f);
    SortByTie((a, 2), (b, 2), CountDescending);
  }

  /** A key starting with a letter is not an array index. */
  lemma WordNotArrayIndex(w: string)
    requires w != [] && 'a' <= w[0] <= 'z'
    ensures NotArrayIndex(w)
  {
    assert !IsDigitIn(w[0], 10);
  }

  /** The counted pieces of the example's three titles. */
  lemma ExampleIncidentWords(incidents: seq<Incident>)
    requires |incidents| == 3
    requires incidents[0].title == "Stalker followed me home"
    requires incidents[1].title == "Stalker called repeatedly"
    requires incidents[2].title == "He followed me again"
    ensures IncidentWords(incidents) == ["stalker", "followed", "home"] + ["stalker", "called", "repeatedly"] + ["followed", "again"]
  {
    var titles := LowerTitles(incidents);
    ExampleLowerTitles(incidents);
    ExampleTitle1(titles[0]);
    ExampleTitle2(titles[1]);
    ExampleTitle3(titles[2]);
    CountedWordsThree(titles);
  }

  lemma CountedWordsThree(titles: seq<string>)
    requires |titles| == 3
    ensures CountedWords(titles) == TitleWords(titles[0]) + TitleWords(titles[1]) + TitleWords(titles[2])
  {
    var w0, w1, w2 := TitleWords(titles[0]), TitleWords(titles[1]), TitleWords(titles[2]);
    CountedWordsSnoc(titles, 0);
    CountedWordsSnoc(titles, 1);
    CountedWordsSnoc(titles, 2);
    assert titles[..0] == [] && titles[..3] == titles;
    assert CountedWords(titles[..1]) == [] + w0 == w0;
  }

  /**
   * Three incidents titled "Stalker followed me home", "Stalker called
   * repeatedly" and "He followed me again": "stalker" and "followed" appear
   * twice each and are listed in that order; "me" and "he" are too short.
   */
  lemma ExampleKeywords(incidents: seq<Incident>)
    requires |incidents| == 3
    requires incidents[0].title == "Stalker followed me home"
    requires incidents[1].title == "Stalker called repeatedly"
    requires incidents[2].title == "He followed me again"
    ensures Keywords(incidents) == [("stalker", 2), ("followed", 2)]
  {
    ExampleIncidentWords(incidents);
    var a, b, c, d, e, f := "stalker", "followed", "home", "called", "repeatedly", "again";
    assert ["stalker", "followed", "home"] + ["stalker", "called", "repeatedly"] + ["followed", "again"] == [a, b, c, a, d, e, b, f];
    assert |a| == 7 && |b| == 8 && |c| == 4 && |d| == 6 && |e| == 10 && |f| == 5;
    WordNotArrayIndex(a);
    WordNotArrayIndex(b);
    WordNotArrayIndex(c);
    WordNotArrayIndex(d);
    WordNotArrayIndex(e);
    WordNotArrayIndex(f);
    ExampleTopKeywords(a, b, c, d, e, f);
  }
}
