/**
 * The JavaScript string operations the client relies on: `trim`, the
 * whitespace class of `/\s+/`, `toLowerCase` (on ASCII letters),
 * `includes`, `startsWith`/`endsWith`, `repeat`, `split(/\s+/)` and
 * `Array.prototype.join`.
 */
module Text {

  /**
   * The code points of ECMA-262's WhiteSpace and LineTerminator
   * productions (the Zs category as of Unicode 15), which is what
   * `String.prototype.trim` strips and what `\s` matches.
   */
  predicate IsWhitespace(c: char) {
    || c == '\t' || c == '\n' || c == '\U{000B}' || c == '\U{000C}' || c == '\r'
    || c == ' ' || c == '\U{00A0}' || c == '\U{1680}'
    || ('\U{2000}' <= c <= '\U{200A}')
    || c == '\U{2028}' || c == '\U{2029}' || c == '\U{202F}' || c == '\U{205F}'
    || c == '\U{3000}' || c == '\U{FEFF}'
  }

  predicate AllWhitespace(s: string) {
    forall i | 0 <= i < |s| :: IsWhitespace(s[i])
  }

  predicate NoWhitespace(s: string) {
    forall i | 0 <= i < |s| :: !IsWhitespace(s[i])
  }

  /** `s` with its leading whitespace removed. */
  function TrimStart(s: string): (r: string)
    ensures |r| <= |s| && r == s[|s| - |r|..]
    ensures r == [] || !IsWhitespace(r[0])
    ensures AllWhitespace(s[..|s| - |r|])
  {
    if s != [] && IsWhitespace(s[0]) then TrimStart(s[1..]) else s
  }

  /** `s` with its trailing whitespace removed. */
  function TrimEnd(s: string): (r: string)
    ensures |r| <= |s| && r == s[..|r|]
    ensures r == [] || !IsWhitespace(r[|r| - 1])
    ensures AllWhitespace(s[|r|..])
  {
    if s != [] && IsWhitespace(s[|s| - 1]) then TrimEnd(s[..|s| - 1]) else s
  }

  /** `String.prototype.trim`. */
  function Trim(s: string): string {
    TrimEnd(TrimStart(s))
  }

  /** The trimmed string is the slice of `s` left after stripping whitespace at both ends. */
  lemma TrimSlice(s: string)
    ensures exists i, j :: 0 <= i <= j <= |s| && Trim(s) == s[i..j] && AllWhitespace(s[..i]) && AllWhitespace(s[j..])
  {
    var t := TrimStart(s);
    var r := TrimEnd(t);
    var i := |s| - |t|;
    var j := i + |r|;
    assert r == s[i..j];
    assert s[j..] == t[|r|..];
    assert AllWhitespace(s[..i]) && AllWhitespace(s[j..]);
  }

  /** The trimmed string neither starts nor ends with whitespace. */
  lemma TrimEnds(s: string)
    ensures var r := Trim(s); r == [] || (!IsWhitespace(r[0]) && !IsWhitespace(r[|r| - 1]))
  {
    var t := TrimStart(s);
    var r := TrimEnd(t);
    if r != [] {
      assert r[0] == t[0];
    }
  }

  /**
   * A string that `trim` turns into the empty string (falsy after
   * `.trim()`): one made of whitespace only, as `BlankIffTrimEmpty` shows.
   */
  predicate IsBlank(s: string) {
    AllWhitespace(s)
  }

  lemma AllWhitespaceCons(s: string)
    requires s != []
    ensures AllWhitespace(s) <==> IsWhitespace(s[0]) && AllWhitespace(s[1..])
  {
    if IsWhitespace(s[0]) && AllWhitespace(s[1..]) {
      forall i | 0 <= i < |s| ensures IsWhitespace(s[i]) {
        if i > 0 { assert s[i] == s[1..][i - 1]; }
      }
    }
  }

  lemma {:induction false} TrimStartEmpty(s: string)
    ensures TrimStart(s) == [] <==> AllWhitespace(s)
    decreases |s|
  {
    if s != [] {
      AllWhitespaceCons(s);
      if IsWhitespace(s[0]) {
        TrimStartEmpty(s[1..]);
      }
    }
  }

  /** `trim` leaves nothing exactly when every character of the string is whitespace. */
  lemma BlankIffTrimEmpty(s: string)
    ensures Trim(s) == [] <==> IsBlank(s)
  {
    TrimStartEmpty(s);
    var t := TrimStart(s);
    var r := TrimEnd(t);
    assert |r| == 0 ==> t[|r|..] == t;
  }

  /** The trimmed string is never blank-padded: trimming twice changes nothing. */
  lemma TrimIdempotent(s: string)
    ensures Trim(Trim(s)) == Trim(s)
  {
    var r := Trim(s);
    TrimEnds(s);
    TrimStartKeeps(r);
    TrimEndKeeps(r);
  }

  /** A string that does not start with whitespace is left alone by `trimStart`. */
  lemma TrimStartKeeps(r: string)
    requires r == [] || !IsWhitespace(r[0])
    ensures TrimStart(r) == r
  {
  }

  /** A string that does not end with whitespace is left alone by `trimEnd`. */
  lemma TrimEndKeeps(r: string)
    requires r == [] || !IsWhitespace(r[|r| - 1])
    ensures TrimEnd(r) == r
  {
  }

  /** `toLowerCase` on one character; only ASCII letters are mapped. */
  function LowerChar(c: char): char {
    if 'A' <= c <= 'Z' then (c as int + 32) as char else c
  }

  /** `String.prototype.toLowerCase`, restricted to the ASCII case mapping. */
  function ToLower(s: string): (r: string)
    ensures |r| == |s|
    ensures forall i | 0 <= i < |s| :: r[i] == LowerChar(s[i])
  {
    seq(|s|, i requires 0 <= i < |s| => LowerChar(s[i]))
  }

  /** Lower-casing is idempotent and leaves no upper-case ASCII letter behind. */
  lemma ToLowerIdempotent(s: string)
    ensures ToLower(ToLower(s)) == ToLower(s)
    ensures forall i | 0 <= i < |s| :: !('A' <= ToLower(s)[i] <= 'Z')
  {
  }

  predicate StartsWith(s: string, prefix: string) {
    |prefix| <= |s| && s[..|prefix|] == prefix
  }

  predicate EndsWith(s: string, suffix: string) {
    |suffix| <= |s| && s[|s| - |suffix|..] == suffix
  }

  /** `sub` occurs in `s` at position `i`. */
  predicate OccursAt(s: string, sub: string, i: int) {
    0 <= i <= |s| - |sub| && s[i..i + |sub|] == sub
  }

  /** `String.prototype.includes`: `sub` occurs somewhere in `s`. */
  predicate Contains(s: string, sub: string) {
    exists i | 0 <= i <= |s| :: OccursAt(s, sub, i)
  }

  /** Whatever is concatenated around `mid`, the result contains `mid`. */
  lemma ContainsMiddle(pre: string, mid: string, post: string)
    ensures Contains(pre + mid + post, mid)
  {
    var s := pre + mid + post;
    assert s[|pre|..|pre| + |mid|] == mid;
    assert OccursAt(s, mid, |pre|);
  }

  /** Every string contains the empty string. */
  lemma ContainsEmpty(s: string)
    ensures Contains(s, [])
  {
    assert OccursAt(s, [], 0);
  }

  lemma AppendAssoc(a: string, b: string, c: string)
    ensures a + (b + c) == a + b + c
  {
  }

  /** In `head + s + sp + rest`, the character after `head` is the first of `s`, or of `sp` when `s` is empty. */
  lemma CharAfterPrefix(head: string, s: string, sp: string, rest: string)
    requires sp != []
    ensures StartsWith(head + s + sp + rest, head)
    ensures |head| < |head + s + sp + rest|
    ensures (head + s + sp + rest)[|head|] == if s != [] then s[0] else sp[0]
  {
    var r := head + s + sp + rest;
    assert r[..|head|] == head;
  }

  /** A string contains each of its suffixes. */
  lemma ContainsSuffix(s: string, sub: string)
    ensures Contains(s + sub, sub)
  {
    ContainsMiddle(s, sub, "");
    assert s + sub + "" == s + sub;
  }

  /** Five more pieces appended keep an occurrence. */
  lemma ContainsGrowRight5(s: string, a: string, b: string, c: string, d: string, e: string, sub: string)
    requires Contains(s, sub)
    ensures Contains(s + a + b + c + d + e, sub)
  {
    ContainsGrowRight(s, a, sub);
    ContainsGrowRight(s + a, b, sub);
    ContainsGrowRight(s + a + b, c, sub);
    ContainsGrowRight(s + a + b + c, d, sub);
    ContainsGrowRight(s + a + b + c + d, e, sub);
  }

  /** A string contains each of its prefixes. */
  lemma ContainsPrefix(sub: string, s: string)
    ensures Contains(sub + s, sub)
  {
    assert (sub + s)[0..|sub|] == sub;
    assert OccursAt(sub + s, sub, 0);
  }

  /** A prefix of a prefix is a prefix. */
  lemma StartsWithTransitive(s: string, t: string, u: string)
    requires StartsWith(s, t) && StartsWith(t, u)
    ensures StartsWith(s, u)
  {
    assert s[..|u|] == s[..|t|][..|u|];
  }

  /** A concatenation of three parts opens with the first and closes with the last. */
  lemma PartsOf(a: string, b: string, c: string)
    ensures StartsWith(a + b + c, a) && EndsWith(a + b + c, c)
  {
    assert (a + b + c)[..|a|] == a;
    assert (a + b + c)[|a + b|..] == c;
  }

  /** Text appended after a prefix keeps it a prefix. */
  lemma StartsWithGrow(s: string, t: string, prefix: string)
    requires StartsWith(s, prefix)
    ensures StartsWith(s + t, prefix)
  {
    assert (s + t)[..|prefix|] == s[..|prefix|];
  }

  /** Text appended after an occurrence keeps it. */
  lemma ContainsGrowRight(s: string, t: string, sub: string)
    requires Contains(s, sub)
    ensures Contains(s + t, sub)
  {
    var i :| 0 <= i <= |s| && OccursAt(s, sub, i);
    assert (s + t)[i..i + |sub|] == s[i..i + |sub|];
    assert OccursAt(s + t, sub, i);
  }

  /** Text prepended before an occurrence keeps it. */
  lemma ContainsGrowLeft(s: string, t: string, sub: string)
    requires Contains(t, sub)
    ensures Contains(s + t, sub)
  {
    var i :| 0 <= i <= |t| && OccursAt(t, sub, i);
    assert (s + t)[|s| + i..|s| + i + |sub|] == t[i..i + |sub|];
    assert OccursAt(s + t, sub, |s| + i);
  }

  /** A substring of a substring is a substring. */
  lemma ContainsTransitive(s: string, t: string, u: string)
    requires Contains(s, t) && Contains(t, u)
    ensures Contains(s, u)
  {
    var i :| 0 <= i <= |s| && OccursAt(s, t, i);
    var j :| 0 <= j <= |t| && OccursAt(t, u, j);
    forall k | 0 <= k < |u| ensures s[i + j + k] == u[k] {
      assert u[k] == t[j + k] == s[i + j + k];
    }
    assert s[i + j..i + j + |u|] == u;
    assert OccursAt(s, u, i + j);
  }

  /** `c.repeat(n)` for a one-character string `c`. */
  function Repeat(c: char, n: nat): (r: string)
    ensures |r| == n
    ensures forall i | 0 <= i < n :: r[i] == c
  {
    seq(n, _ => c)
  }

  /** `s.substring(0, n)`: the first `n` characters, or all of `s` when it is shorter. */
  function Substring(s: string, n: nat): (r: string)
    ensures |r| <= n && |r| <= |s| && r == s[..|r|]
    ensures |s| <= n ==> r == s
  {
    if |s| > n then s[..n] else s
  }

  /** `parts.join(sep)`. */
  function Join(parts: seq<string>, sep: string): (r: string)
    decreases |parts|
  {
    if parts == [] then ""
    else if |parts| == 1 then parts[0]
    else parts[0] + sep + Join(parts[1..], sep)
  }

  /** The longest prefix of `s` without whitespace. */
  function NonWhitespacePrefix(s: string): (r: string)
    ensures |r| <= |s| && r == s[..|r|] && NoWhitespace(r)
    ensures |r| < |s| ==> IsWhitespace(s[|r|])
  {
    if s == [] || IsWhitespace(s[0]) then [] else [s[0]] + NonWhitespacePrefix(s[1..])
  }

  /**
   * `s.split(/\s+/)`: the pieces between maximal runs of whitespace. As in
   * JavaScript, leading or trailing whitespace yields an empty first or last
   * piece, and the empty string yields one empty piece.
   */
  function SplitWhitespace(s: string): (r: seq<string>)
    ensures |r| >= 1
    ensures forall k | 0 <= k < |r| :: NoWhitespace(r[k])
    decreases |s|
  {
    var p := NonWhitespacePrefix(s);
    if |p| == |s| then [s]
    else [p] + SplitWhitespace(TrimStart(s[|p|..]))
  }
  /** Lower-case ASCII letters are not whitespace. */
  lemma LettersNoWhitespace(s: string)
    requires forall i | 0 <= i < |s| :: 'a' <= s[i] <= 'z'
    ensures NoWhitespace(s)
  {
  }

  /** A word followed by whitespace or nothing: the word is the longest prefix without whitespace. */
  lemma {:induction false} PrefixOfWord(w: string, rest: string)
    requires NoWhitespace(w) && (rest == [] || IsWhitespace(rest[0]))
    ensures NonWhitespacePrefix(w + rest) == w
    decreases |w|
  {
    if w == [] {
      assert w + rest == rest;
    } else {
      assert (w + rest)[1..] == w[1..] + rest;
      PrefixOfWord(w[1..], rest);
      assert w == [w[0]] + w[1..];
    }
  }

  /** A string without whitespace is split into itself alone. */
  lemma SplitOneWord(w: string)
    requires NoWhitespace(w)
    ensures SplitWhitespace(w) == [w]
  {
    PrefixOfWord(w, []);
    assert w + [] == w;
  }

  /** A word, one space and a text starting with a non-whitespace character: the word is the first piece. */
  lemma SplitFirstWord(w: string, rest: string)
    requires NoWhitespace(w) && rest != [] && !IsWhitespace(rest[0])
    ensures SplitWhitespace(w + " " + rest) == [w] + SplitWhitespace(rest)
  {
    var s := w + " " + rest;
    assert s == w + (" " + rest);
    PrefixOfWord(w, " " + rest);
    assert NonWhitespacePrefix(s) == w;
    assert s[|w|..] == " " + rest;
    assert TrimStart(" " + rest) == rest by {
      assert (" " + rest)[1..] == rest;
      assert IsWhitespace((" " + rest)[0]);
      assert TrimStart(rest) == rest;
    }
    assert SplitWhitespace(s) == [w] + SplitWhitespace(TrimStart(s[|w|..]));
  }

  /** A join starts with its first part, when that part is not empty. */
  lemma JoinStarts(parts: seq<string>, sep: string)
    requires parts != [] && parts[0] != []
    ensures Join(parts, sep) != [] && Join(parts, sep)[0] == parts[0][0]
  {
  }

  /** Words without whitespace joined by single spaces are split back into those words. */
  lemma {:induction false} SplitJoined(words: seq<string>)
    requires words != []
    requires forall k | 0 <= k < |words| :: words[k] != [] && NoWhitespace(words[k])
    ensures SplitWhitespace(Join(words, " ")) == words
    decreases |words|
  {
    if |words| == 1 {
      SplitOneWord(words[0]);
    } else {
      var rest := words[1..];
      SplitJoined(rest);
      SplitJoinedStep(words, Join(rest, " "));
    }
  }

  /** One more word in front of a joined text that splits back into the remaining words. */
  lemma SplitJoinedStep(words: seq<string>, tail: string)
    requires |words| > 1
    requires forall k | 0 <= k < |words| :: words[k] != [] && NoWhitespace(words[k])
    requires tail == Join(words[1..], " ") && SplitWhitespace(tail) == words[1..]
    ensures SplitWhitespace(Join(words, " ")) == words
  {
    var rest := words[1..];
    assert tail != [] && !IsWhitespace(tail[0]) by {
      assert rest[0] == words[1];
      JoinStarts(rest, " ");
    }
    SplitFirstWord(words[0], tail);
    assert [words[0]] + rest == words;
  }

  /**
   * A numbered list: `entry(start, items[0]) + entry(start + 1, items[1]) + …`,
   * the text a `forEach((item, index) => …)` loop appends.
   */
  function Numbered<T>(items: seq<T>, start: nat, entry: (nat, T) -> string): string
    decreases |items|
  {
    if items == [] then "" else entry(start, items[0]) + Numbered(items[1..], start + 1, entry)
  }

  /** Splitting the items splits the list; the numbering of the second part continues the first. */
  lemma {:induction false} NumberedSplit<T>(a: seq<T>, b: seq<T>, start: nat, entry: (nat, T) -> string)
    ensures Numbered(a + b, start, entry) == Numbered(a, start, entry) + Numbered(b, start + |a|, entry)
    decreases |a|
  {
    if a == [] {
      assert a + b == b;
    } else {
      assert (a + b)[1..] == a[1..] + b;
      NumberedSplit(a[1..], b, start + 1, entry);
    }
  }

  /** One more item appends one more entry, numbered after the others. */
  lemma NumberedSnoc<T>(a: seq<T>, x: T, start: nat, entry: (nat, T) -> string)
    ensures Numbered(a + [x], start, entry) == Numbered(a, start, entry) + entry(start + |a|, x)
  {
    NumberedSplit(a, [x], start, entry);
    assert [x][1..] == [];
  }

  /**
   * Item `k` (from 0) is entry number `start + k`, preceded by the entries
   * of the items before it and followed by those after it.
   */
  lemma NumberedAt<T>(items: seq<T>, start: nat, entry: (nat, T) -> string, k: nat)
    requires k < |items|
    ensures Numbered(items, start, entry)
            == Numbered(items[..k], start, entry) + entry(start + k, items[k]) + Numbered(items[k + 1..], start + k + 1, entry)
  {
    assert items == items[..k] + items[k..];
    NumberedSplit(items[..k], items[k..], start, entry);
    assert items[k..][1..] == items[k + 1..];
  }

  /** Numbering one more element of `items` appends that element's entry. */
  lemma NumberedPrefixSnoc<T>(items: seq<T>, i: nat, start: nat, entry: (nat, T) -> string)
    requires i < |items|
    ensures Numbered(items[..i + 1], start, entry) == Numbered(items[..i], start, entry) + entry(start + i, items[i])
  {
    assert items[..i + 1] == items[..i] + [items[i]];
    NumberedSnoc(items[..i], items[i], start, entry);
  }

  /** Each item's entry, with its number, occurs in the list. */
  lemma NumberedContains<T>(items: seq<T>, start: nat, entry: (nat, T) -> string, k: nat)
    requires k < |items|
    ensures Contains(Numbered(items, start, entry), entry(start + k, items[k]))
  {
    NumberedAt(items, start, entry, k);
    ContainsMiddle(Numbered(items[..k], start, entry), entry(start + k, items[k]), Numbered(items[k + 1..], start + k + 1, entry));
  }

  /** The lines `line(items[0]) + line(items[1]) + …`, the text a `forEach(item => …)` loop appends. */
  function Lines<T>(items: seq<T>, line: T -> string): string
    decreases |items|
  {
    if items == [] then "" else line(items[0]) + Lines(items[1..], line)
  }

  /** One more item appends its line. */
  lemma {:induction false} LinesSnoc<T>(items: seq<T>, x: T, line: T -> string)
    ensures Lines(items + [x], line) == Lines(items, line) + line(x)
    decreases |items|
  {
    if items == [] {
      assert [x][1..] == [];
    } else {
      assert (items + [x])[1..] == items[1..] + [x];
      LinesSnoc(items[1..], x, line);
    }
  }

  /** Each item's line occurs in the text. */
  lemma {:induction false} LinesContains<T>(items: seq<T>, line: T -> string, k: nat)
    requires k < |items|
    ensures Contains(Lines(items, line), line(items[k]))
    decreases k
  {
    if k == 0 {
      ContainsPrefix(line(items[0]), Lines(items[1..], line));
    } else {
      LinesContains(items[1..], line, k - 1);
      ContainsGrowLeft(line(items[0]), Lines(items[1..], line), line(items[k]));
    }
  }
}
