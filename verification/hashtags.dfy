/**
 * Normalisation of the `hashtags` field of a creation request:
 * `(s || '').split(/[^\w]+/).filter(tag => tag != '')`.
 */
module Hashtags {
  import opened Options
  import opened JsText

  /** A tag as normalisation produces it: a non-empty run of word characters. */
  predicate IsTag(t: string) {
    t != [] && forall i :: 0 <= i < |t| ==> IsWordChar(t[i])
  }

  predicate AllWordChars(t: string) {
    forall i :: 0 <= i < |t| ==> IsWordChar(t[i])
  }

  /** The longest prefix of `s` made of word characters. */
  function WordPrefix(s: string): (r: string)
    ensures r <= s && AllWordChars(r)
    ensures |r| < |s| ==> !IsWordChar(s[|r|])
  {
    if s != [] && IsWordChar(s[0]) then [s[0]] + WordPrefix(s[1..]) else []
  }

  /** The length of the longest prefix of `s` made of other characters. */
  function SeparatorLength(s: string): (n: nat)
    ensures n <= |s|
    ensures forall i :: 0 <= i < n ==> !IsWordChar(s[i])
    ensures n < |s| ==> IsWordChar(s[n])
  {
    if s != [] && !IsWordChar(s[0]) then 1 + SeparatorLength(s[1..]) else 0
  }

  /**
   * `s.split(/[^\w]+/)`: the pieces between maximal runs of non-word
   * characters, with an empty first or last piece when `s` starts or ends
   * with such a run (and `[""]` for the empty string).
   */
  function SplitOnNonWord(s: string): (r: seq<string>)
    ensures |r| > 0
    ensures forall i :: 0 <= i < |r| ==> AllWordChars(r[i])
    decreases |s|
  {
    var w := WordPrefix(s);
    var rest := s[|w|..];
    if rest == [] then [w]
    else [w] + SplitOnNonWord(rest[SeparatorLength(rest)..])
  }

  /**
   * `.filter(tag => tag != '')`: every non-empty piece is kept as often as
   * it occurs, and nothing else (the order is `DropEmptyAppend`).
   */
  function DropEmpty(pieces: seq<string>): (r: seq<string>)
    ensures forall i :: 0 <= i < |r| ==> r[i] != [] && r[i] in pieces
    ensures forall t :: t != [] ==> multiset(r)[t] == multiset(pieces)[t]
    ensures |r| <= |pieces|
  {
    if pieces == [] then []
    else
      assert pieces == [pieces[0]] + pieces[1..];
      if pieces[0] == [] then DropEmpty(pieces[1..])
      else [pieces[0]] + DropEmpty(pieces[1..])
  }

  /** Filtering keeps the order of the pieces: it distributes over concatenation. */
  lemma {:induction false} DropEmptyAppend(a: seq<string>, b: seq<string>)
    ensures DropEmpty(a + b) == DropEmpty(a) + DropEmpty(b)
  {
    if a != [] {
      assert (a + b)[0] == a[0] && (a + b)[1..] == a[1..] + b;
      DropEmptyAppend(a[1..], b);
    } else {
      assert a + b == b;
    }
  }

  /**
   * The tags of a `hashtags` field; `None` is a missing field, which the
   * server reads as the empty string.
   */
  function ParseHashtags(field: Option<string>): (tags: seq<string>)
    ensures forall i :: 0 <= i < |tags| ==> IsTag(tags[i])
    ensures field.None? ==> tags == []
  {
    var pieces := SplitOnNonWord(field.GetOr(""));
    assert field.None? ==>
      WordPrefix("") == "" && pieces == [""] && pieces[1..] == [] && DropEmpty(pieces) == [];
    DropEmpty(pieces)
  }

  /** The word characters of `s`, in order. */
  function WordChars(s: string): string {
    if s == [] then [] else (if IsWordChar(s[0]) then [s[0]] else []) + WordChars(s[1..])
  }

  function Concat(pieces: seq<string>): string {
    if pieces == [] then [] else pieces[0] + Concat(pieces[1..])
  }

  lemma {:induction false} WordCharsAppend(a: string, b: string)
    ensures WordChars(a + b) == WordChars(a) + WordChars(b)
  {
    if a != [] {
      assert (a + b)[1..] == a[1..] + b;
      WordCharsAppend(a[1..], b);
    } else {
      assert a + b == b;
    }
  }

  lemma {:induction false} ConcatDropEmpty(pieces: seq<string>)
    ensures Concat(DropEmpty(pieces)) == Concat(pieces)
  {
    if pieces != [] {
      ConcatDropEmpty(pieces[1..]);
    }
  }

  lemma {:induction false} WordCharsOfWord(w: string)
    requires AllWordChars(w)
    ensures WordChars(w) == w
  {
    if w != [] {
      WordCharsOfWord(w[1..]);
    }
  }

  lemma {:induction false} WordCharsOfSeparator(s: string, n: nat)
    requires n <= |s|
    requires forall i :: 0 <= i < n ==> !IsWordChar(s[i])
    ensures WordChars(s) == WordChars(s[n..])
  {
    if n > 0 {
      WordCharsOfSeparator(s[1..], n - 1);
      assert s[1..][n - 1..] == s[n..];
    }
  }

  lemma {:induction false} ConcatSplit(s: string)
    ensures Concat(SplitOnNonWord(s)) == WordChars(s)
    decreases |s|
  {
    var w := WordPrefix(s);
    var rest := s[|w|..];
    assert s == w + rest;
    WordCharsAppend(w, rest);
    WordCharsOfWord(w);
    if rest != [] {
      var n := SeparatorLength(rest);
      WordCharsOfSeparator(rest, n);
      var tail := SplitOnNonWord(rest[n..]);
      ConcatSplit(rest[n..]);
      assert SplitOnNonWord(s) == [w] + tail;
      ConcatCons(w, tail);
    } else {
      assert SplitOnNonWord(s) == [w];
      ConcatCons(w, []);
    }
  }

  lemma ConcatCons(w: string, tail: seq<string>)
    ensures Concat([w] + tail) == w + Concat(tail)
  {
    assert ([w] + tail)[1..] == tail;
  }

  /**
   * Normalisation loses no word character and keeps their order: the tags,
   * concatenated, are the word characters of the field.
   */
  lemma ParseHashtagsKeepsWordChars(s: string)
    ensures Concat(ParseHashtags(Some(s))) == WordChars(s)
  {
    ConcatDropEmpty(SplitOnNonWord(s));
    ConcatSplit(s);
  }

  lemma {:induction false} WordPrefixOfWord(w: string, rest: string)
    requires AllWordChars(w)
    requires rest == [] || !IsWordChar(rest[0])
    ensures WordPrefix(w + rest) == w
  {
    if w != [] {
      assert (w + rest)[1..] == w[1..] + rest;
      WordPrefixOfWord(w[1..], rest);
    }
  }

  lemma {:induction false} SplitJoin(tags: seq<string>)
    requires tags != []
    requires forall i :: 0 <= i < |tags| ==> IsTag(tags[i])
    ensures SplitOnNonWord(Join(tags, " ")) == tags
    decreases |tags|
  {
    if |tags| == 1 {
      WordPrefixOfWord(tags[0], []);
      assert tags[0] + [] == tags[0];
    } else {
      var tail := Join(tags[1..], " ");
      JoinStartsWithTag(tags[1..]);
      SplitStep(tags[0], tail);
      SplitJoin(tags[1..]);
    }
  }

  lemma JoinStartsWithTag(tags: seq<string>)
    requires tags != [] && IsTag(tags[0])
    ensures Join(tags, " ") != [] && Join(tags, " ")[0] == tags[0][0]
  {
    if |tags| > 1 {
      assert Join(tags, " ") == tags[0] + " " + Join(tags[1..], " ");
    }
  }

  /** Splitting a word, a space and text that starts with a word character. */
  lemma SplitStep(w: string, tail: string)
    requires IsTag(w) && tail != [] && IsWordChar(tail[0])
    ensures SplitOnNonWord(w + " " + tail) == [w] + SplitOnNonWord(tail)
  {
    SplitAfterWord(w, " ", tail);
  }

  /** Splitting a run of word characters, a separator run and what follows it. */
  lemma SplitAfterWord(w: string, sep: string, tail: string)
    requires AllWordChars(w) && sep != [] && forall i :: 0 <= i < |sep| ==> !IsWordChar(sep[i])
    requires tail == [] || IsWordChar(tail[0])
    ensures SplitOnNonWord(w + sep + tail) == [w] + SplitOnNonWord(tail)
  {
    var s := w + sep + tail;
    assert s == w + (sep + tail);
    WordPrefixOfWord(w, sep + tail);
    assert s[|w|..] == sep + tail;
    SeparatorRun(sep, tail);
  }

  lemma {:induction false} SeparatorRun(sep: string, tail: string)
    requires forall i :: 0 <= i < |sep| ==> !IsWordChar(sep[i])
    requires tail == [] || IsWordChar(tail[0])
    ensures SeparatorLength(sep + tail) == |sep| && (sep + tail)[|sep|..] == tail
  {
    if sep != [] {
      assert (sep + tail)[1..] == sep[1..] + tail;
      SeparatorRun(sep[1..], tail);
    } else {
      assert sep + tail == tail;
    }
  }

  lemma {:induction false} DropEmptyOfTags(tags: seq<string>)
    requires forall i :: 0 <= i < |tags| ==> IsTag(tags[i])
    ensures DropEmpty(tags) == tags
  {
    if tags != [] {
      DropEmptyOfTags(tags[1..]);
    }
  }

  /**
   * Joining tags with spaces (as the `Tags` attribute does) and normalising
   * the result gives the same tags back.
   */
  lemma ParseJoinRoundTrip(tags: seq<string>)
    requires forall i :: 0 <= i < |tags| ==> IsTag(tags[i])
    ensures ParseHashtags(Some(Join(tags, " "))) == tags
  {
    if tags != [] {
      SplitJoin(tags);
      DropEmptyOfTags(tags);
    }
  }
}
