/** Python's whitespace (`str.isspace`) and the two `str` methods the scraper
    calls: `split()` with no separator and `replace(c, "")` for a single character.
    `" ".join` is here as the reference that `split()` inverts. */
module PyText {

  /** `str.isspace()` for one character: the ASCII whitespace and information
      separators plus the Unicode space separators and line/paragraph separators. */
  predicate IsSpace(c: char) {
    || c == ' ' || ('\t' <= c <= '\r')
    || ('\U{1C}' <= c <= '\U{1F}')
    || c == '\U{85}' || c == '\U{A0}' || c == '\U{1680}'
    || ('\U{2000}' <= c <= '\U{200A}')
    || c == '\U{2028}' || c == '\U{2029}' || c == '\U{202F}' || c == '\U{205F}'
    || c == '\U{3000}'
  }

  predicate AllSpace(s: string) {
    forall i :: 0 <= i < |s| ==> IsSpace(s[i])
  }

  predicate NoSpace(s: string) {
    forall i :: 0 <= i < |s| ==> !IsSpace(s[i])
  }

  /** The words of `s` when the word being read so far is `cur`: each whitespace
      character ends a non-empty current word, any other character extends it. */
  function SplitFrom(s: string, cur: string): (r: seq<string>)
    decreases |s|
  {
    if s == [] then (if cur == [] then [] else [cur])
    else if IsSpace(s[0]) then (if cur == [] then [] else [cur]) + SplitFrom(s[1..], [])
    else SplitFrom(s[1..], cur + [s[0]])
  }

  /** `s.split()`: the maximal runs of non-whitespace characters of `s`, in order. */
  function Split(s: string): (r: seq<string>)
    ensures r == [] <==> AllSpace(s)
    ensures forall i :: 0 <= i < |r| ==> r[i] != [] && NoSpace(r[i])
  {
    SplitFromWords(s, []);
    SplitFromEmpty(s, []);
    SplitFrom(s, [])
  }

  /** Every word produced is non-empty and free of whitespace. */
  lemma {:induction false} SplitFromWords(s: string, cur: string)
    requires NoSpace(cur)
    ensures forall i :: 0 <= i < |SplitFrom(s, cur)| ==>
              SplitFrom(s, cur)[i] != [] && NoSpace(SplitFrom(s, cur)[i])
    decreases |s|
  {
    if s == [] {
    } else if IsSpace(s[0]) {
      SplitFromWords(s[1..], []);
    } else {
      SplitFromWords(s[1..], cur + [s[0]]);
    }
  }

  /** No word at all comes out exactly when nothing is pending and only whitespace is left. */
  lemma {:induction false} SplitFromEmpty(s: string, cur: string)
    ensures SplitFrom(s, cur) == [] <==> cur == [] && AllSpace(s)
    decreases |s|
  {
    if s == [] {
    } else if IsSpace(s[0]) {
      SplitFromEmpty(s[1..], []);
      if cur == [] && AllSpace(s[1..]) {
        assert forall i :: 0 < i < |s| ==> s[i] == s[1..][i - 1];
      }
    } else {
      SplitFromEmpty(s[1..], cur + [s[0]]);
    }
  }

  /** Whitespace in front of the text does not change its words. */
  lemma {:induction false} SplitSpaces(w: string, s: string)
    requires AllSpace(w)
    ensures Split(w + s) == Split(s)
    decreases |w|
  {
    if w == [] {
      assert w + s == s;
    } else {
      assert (w + s)[0] == w[0];
      assert (w + s)[1..] == w[1..] + s;
      SplitSpaces(w[1..], s);
    }
  }

  /** Reading a whitespace-free stretch extends the current word by it. */
  lemma {:induction false} SplitFromWord(tok: string, rest: string, cur: string)
    requires NoSpace(tok)
    ensures SplitFrom(tok + rest, cur) == SplitFrom(rest, cur + tok)
    decreases |tok|
  {
    if tok == [] {
      assert tok + rest == rest && cur + tok == cur;
    } else {
      assert (tok + rest)[0] == tok[0];
      assert (tok + rest)[1..] == tok[1..] + rest;
      assert cur + [tok[0]] + tok[1..] == cur + tok;
      SplitFromWord(tok[1..], rest, cur + [tok[0]]);
    }
  }

  /** The first word of `split()`: after any leading whitespace, a non-empty
      whitespace-free word that ends at the next whitespace character or at the end. */
  lemma SplitFirst(w: string, tok: string, rest: string)
    requires AllSpace(w) && tok != [] && NoSpace(tok)
    requires rest == [] || IsSpace(rest[0])
    ensures Split(w + tok + rest) == [tok] + Split(rest)
  {
    assert w + tok + rest == w + (tok + rest);
    SplitSpaces(w, tok + rest);
    SplitFromWord(tok, rest, []);
    assert [] + tok == tok;
  }

  /** `" ".join(ts)`. */
  function JoinSpace(ts: seq<string>): string {
    if |ts| == 0 then []
    else if |ts| == 1 then ts[0]
    else ts[0] + " " + JoinSpace(ts[1..])
  }

  /** `split()` undoes `" ".join` on whitespace-free non-empty words. */
  lemma {:induction false} SplitJoin(ts: seq<string>)
    requires forall i :: 0 <= i < |ts| ==> ts[i] != [] && NoSpace(ts[i])
    ensures Split(JoinSpace(ts)) == ts
  {
    if |ts| == 0 {
    } else if |ts| == 1 {
      SplitFirst([], ts[0], []);
      assert [] + ts[0] + [] == ts[0];
    } else {
      var j := JoinSpace(ts[1..]);
      SplitFirst([], ts[0], " " + j);
      assert [] + ts[0] + (" " + j) == ts[0] + " " + j;
      SplitSpaces(" ", j);
      SplitJoin(ts[1..]);
      assert ts == [ts[0]] + ts[1..];
    }
  }

  /** `s.replace(c, "")` for a single character `c`: no `c` is left. */
  function DeleteAll(s: string, c: char): (r: string)
    ensures c !in r
    ensures |r| <= |s|
  {
    if s == [] then [] else (if s[0] == c then [] else [s[0]]) + DeleteAll(s[1..], c)
  }

  /** Deletion drops exactly the occurrences of `c`: every other character keeps
      its number of occurrences. */
  lemma {:induction false} DeleteAllCounts(s: string, c: char)
    ensures forall d :: d != c ==> multiset(DeleteAll(s, c))[d] == multiset(s)[d]
    ensures |DeleteAll(s, c)| == |s| - multiset(s)[c]
    decreases |s|
  {
    if s != [] {
      assert s == [s[0]] + s[1..];
      DeleteAllCounts(s[1..], c);
    }
  }

  /** Deletion works piecewise, so it keeps the order of the remaining characters. */
  lemma {:induction false} DeleteAllAppend(a: string, b: string, c: char)
    ensures DeleteAll(a + b, c) == DeleteAll(a, c) + DeleteAll(b, c)
    decreases |a|
  {
    if a == [] {
      assert a + b == b;
    } else {
      assert (a + b)[0] == a[0];
      assert (a + b)[1..] == a[1..] + b;
      DeleteAllAppend(a[1..], b, c);
    }
  }

  /** Deletion changes the text exactly when the character occurs in it. */
  lemma {:induction false} DeleteAllUnchanged(s: string, c: char)
    ensures DeleteAll(s, c) == s <==> c !in s
    decreases |s|
  {
    if s != [] && c !in s {
      DeleteAllUnchanged(s[1..], c);
    }
  }
}
