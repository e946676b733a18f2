/**
 * The hashtag ranking (`calculateHashtags`): the count of every distinct tag
 * over all records, then the tags of the count object in `Object.entries`
 * order, stably sorted by descending count.
 */
module Ranking {
  import opened Options
  import opened JsText
  import opened Records
  import opened Hashtags

  /** Every tag of every record, in the order the counting loops visit them. */
  function AllTags(recs: seq<Token>): seq<string> {
    if recs == [] then [] else recs[0].hashtags + AllTags(recs[1..])
  }

  lemma {:induction false} AllTagsSnoc(recs: seq<Token>, i: nat)
    requires i < |recs|
    ensures AllTags(recs[..i + 1]) == AllTags(recs[..i]) + recs[i].hashtags
  {
    if i > 0 {
      AllTagsSnoc(recs[1..], i - 1);
      assert recs[..i + 1][1..] == recs[1..][..i];
      assert recs[..i][1..] == recs[1..][..i - 1];
    } else {
      assert recs[..1][1..] == [];
    }
  }

  /** How many times `t` occurs in `tags`. */
  function Occurrences(tags: seq<string>, t: string): nat {
    multiset(tags)[t]
  }

  predicate NoDuplicates(s: seq<string>) {
    forall i, j :: 0 <= i < j < |s| ==> s[i] != s[j]
  }

  /** The index of `t` in `s` (its first one). */
  function Position(s: seq<string>, t: string): (k: nat)
    requires t in s
    ensures k < |s| && s[k] == t && t !in s[..k]
  {
    if s[0] == t then 0 else 1 + Position(s[1..], t)
  }

  lemma {:induction false} PositionOfElement(s: seq<string>, k: nat)
    requires NoDuplicates(s) && k < |s|
    ensures Position(s, s[k]) == k
  {
    if k > 0 {
      assert s[0] != s[k];
      assert s[1..][k - 1] == s[k];
      PositionOfElement(s[1..], k - 1);
    }
  }

  /**
   * The keys of the count object in insertion order: the distinct tags in the
   * order of their first occurrence.
   */
  function Distinct(tags: seq<string>): (r: seq<string>)
    ensures NoDuplicates(r)
    ensures forall t :: t in r <==> t in tags
  {
    if tags == [] then []
    else
      var prefix := tags[..|tags| - 1];
      var last := tags[|tags| - 1];
      assert tags == prefix + [last];
      if last in prefix then Distinct(prefix) else Distinct(prefix) + [last]
  }

  /**
   * A key that ECMAScript calls an array index: the canonical decimal numeral
   * of a number below 2^32 - 1. An ordinary object lists such keys before all
   * others, in ascending numeric order.
   */
  predicate IsArrayIndex(t: string) {
    && t != []
    && (forall i :: 0 <= i < |t| ==> IsDigit(t[i]))
    && DecimalValue(t) < 0xFFFF_FFFF
    && NatToString(DecimalValue(t)) == t
  }

  /**
   * `a` comes before `b` in `Object.entries` of an object whose keys were
   * inserted in the order `keys`.
   */
  predicate KeyBefore(keys: seq<string>, a: string, b: string)
    requires a in keys && b in keys
  {
    if IsArrayIndex(a) && IsArrayIndex(b) then DecimalValue(a) < DecimalValue(b)
    else if IsArrayIndex(a) || IsArrayIndex(b) then IsArrayIndex(a)
    else Position(keys, a) < Position(keys, b)
  }

  /**
   * `a` ranks above `b`: it occurs more often, or as often and comes first in
   * `Object.entries`, an order the stable sort keeps among equal counts.
   */
  predicate RanksBefore(tags: seq<string>, a: string, b: string)
    requires a in tags && b in tags
  {
    || Occurrences(tags, a) > Occurrences(tags, b)
    || (Occurrences(tags, a) == Occurrences(tags, b) && KeyBefore(Distinct(tags), a, b))
  }

  /**
   * `r` is the ranking of `tags`: each distinct tag exactly once, nothing
   * else, in ranking order.
   */
  ghost predicate IsRanking(tags: seq<string>, r: seq<string>) {
    && NoDuplicates(r)
    && (forall t :: t in r <==> t in tags)
    && (forall i, j :: 0 <= i < j < |r| ==> RanksBefore(tags, r[i], r[j]))
  }

  lemma RanksBeforeIsAsymmetric(tags: seq<string>, a: string, b: string)
    requires a in tags && b in tags
    ensures RanksBefore(tags, a, b) ==> !RanksBefore(tags, b, a)
  {
  }

  lemma HeadRanksFirst(tags: seq<string>, r: seq<string>, t: string)
    requires forall u :: u in r ==> u in tags
    requires forall i, j :: 0 <= i < j < |r| ==> RanksBefore(tags, r[i], r[j])
    requires t in r
    ensures t == r[0] || RanksBefore(tags, r[0], t)
  {
    var k := Position(r, t);
    if k > 0 {
      assert RanksBefore(tags, r[0], r[k]);
    }
  }

  lemma {:induction false} SortedIsUnique(tags: seq<string>, r1: seq<string>, r2: seq<string>)
    requires NoDuplicates(r1) && NoDuplicates(r2)
    requires forall t :: t in r1 ==> t in tags
    requires forall t :: t in r1 <==> t in r2
    requires forall i, j :: 0 <= i < j < |r1| ==> RanksBefore(tags, r1[i], r1[j])
    requires forall i, j :: 0 <= i < j < |r2| ==> RanksBefore(tags, r2[i], r2[j])
    ensures r1 == r2
  {
    assert forall i :: 0 <= i < |r2| ==> r2[i] in r1;
    assert r2 == [] || r2[0] in r1;
    if r1 != [] {
      assert r1[0] in r2 && r2[0] in r1;
      assert r1[0] == r2[0] by {
        HeadRanksFirst(tags, r1, r2[0]);
        HeadRanksFirst(tags, r2, r1[0]);
        RanksBeforeIsAsymmetric(tags, r1[0], r2[0]);
      }
      forall t ensures t in r1[1..] <==> t in r2[1..] {
        if t in r1[1..] {
          var j := Position(r2, t);
          assert t != r2[0] && j != 0;
          assert r2[1..][j - 1] == t;
        }
        if t in r2[1..] {
          var j := Position(r1, t);
          assert t != r1[0] && j != 0;
          assert r1[1..][j - 1] == t;
        }
      }
      SortedIsUnique(tags, r1[1..], r2[1..]);
      assert r1 == [r1[0]] + r1[1..];
      assert r2 == [r2[0]] + r2[1..];
    }
  }

  /** The ranking of a tag sequence is unique: the store's `hashtags` is a function of its records. */
  lemma RankingIsUnique(tags: seq<string>, r1: seq<string>, r2: seq<string>)
    requires IsRanking(tags, r1) && IsRanking(tags, r2)
    ensures r1 == r2
  {
    SortedIsUnique(tags, r1, r2);
  }

  /** Down the ranking, the number of occurrences never increases. */
  lemma RankingCountsNonIncreasing(tags: seq<string>, r: seq<string>, i: nat)
    requires IsRanking(tags, r) && i + 1 < |r|
    ensures Occurrences(tags, r[i]) >= Occurrences(tags, r[i + 1])
  {
    assert RanksBefore(tags, r[i], r[i + 1]);
  }

  lemma PositionInAppend(s: seq<string>, x: string, a: string)
    requires a in s + [x]
    ensures a in s ==> Position(s + [x], a) == Position(s, a)
    ensures a !in s ==> Position(s + [x], a) == |s|
  {
    if a in s {
      var k := Position(s, a);
      assert (s + [x])[..k] == s[..k];
    } else {
      assert (s + [x])[..|s|] == s;
    }
  }

  /**
   * The insertion order of the count object is the order of first
   * occurrence in the tags.
   */
  lemma {:induction false} DistinctKeepsFirstOccurrence(tags: seq<string>, a: string, b: string)
    requires a in tags && b in tags
    ensures Position(Distinct(tags), a) < Position(Distinct(tags), b) <==> Position(tags, a) < Position(tags, b)
  {
    var prefix := tags[..|tags| - 1];
    var last := tags[|tags| - 1];
    assert tags == prefix + [last];
    PositionInAppend(prefix, last, a);
    PositionInAppend(prefix, last, b);
    if a in prefix && b in prefix {
      DistinctKeepsFirstOccurrence(prefix, a, b);
    }
    if last !in prefix {
      PositionInAppend(Distinct(prefix), last, a);
      PositionInAppend(Distinct(prefix), last, b);
    }
  }

  /**
   * Tags with the same count that are not array indices keep the order in
   * which they first occur.
   */
  lemma TiesKeepFirstOccurrence(tags: seq<string>, r: seq<string>, i: nat, j: nat)
    requires IsRanking(tags, r) && i < j < |r|
    requires Occurrences(tags, r[i]) == Occurrences(tags, r[j])
    requires !IsArrayIndex(r[i]) && !IsArrayIndex(r[j])
    ensures Position(tags, r[i]) < Position(tags, r[j])
  {
    assert RanksBefore(tags, r[i], r[j]);
    DistinctKeepsFirstOccurrence(tags, r[i], r[j]);
  }

  /**
   * Array-index tags come before other tags with the same count, whatever
   * their first occurrence: with one `b` followed by one `7`, `7` ranks first.
   */
  lemma ArrayIndexTagRanksFirst()
    ensures IsRanking(["b", "7"], ["7", "b"])
  {
    ExampleTally();
    assert RanksBefore(["b", "7"], "7", "b");
  }

  lemma ExampleTally()
    ensures IsArrayIndex("7") && !IsArrayIndex("b")
    ensures Occurrences(["b", "7"], "7") == 1 && Occurrences(["b", "7"], "b") == 1
    ensures Distinct(["b", "7"]) == ["b", "7"]
  {
    SevenIsArrayIndex();
    var tags := ["b", "7"];
    assert multiset(tags) == multiset{"b", "7"};
    assert tags[..1] == ["b"] && ["b"][..0] == [];
  }

  lemma SevenIsArrayIndex()
    ensures IsArrayIndex("7")
  {
    assert NatToString(7) == [DigitChar(7)] == "7";
    assert "7"[..0] == [];
    assert DecimalValue("7") == DecimalValue([]) * 10 + DigitValue('7') == 7;
  }

  /**
   * `calculateHashtags`: count every tag of every record in a map whose keys
   * remember their insertion order, list the keys in `Object.entries` order
   * and sort them by descending count with a stable sort.
   */
  method CalculateHashtags(recs: seq<Token>) returns (ranking: seq<string>)
    ensures IsRanking(AllTags(recs), ranking)
  {
    var counts, keys := CountTags(recs);
    ghost var all := AllTags(recs);
    var entries := EntriesOrder(keys);
    ranking := SortByCountDescending(entries, counts);
    forall a, b | 0 <= a < b < |ranking| ensures RanksBefore(all, ranking[a], ranking[b]) {
      var x, y := ranking[a], ranking[b];
      if counts[x] == counts[y] {
        var px, py := Position(entries, x), Position(entries, y);
        assert KeyBefore(keys, entries[px], entries[py]);
      }
    }
  }

  /**
   * `counts` and `keys` are the count object after visiting `seen`: a key per
   * distinct tag, in insertion order, holding that tag's number of occurrences.
   */
  ghost predicate Tally(seen: seq<string>, counts: map<string, nat>, keys: seq<string>) {
    && (forall t :: t in counts <==> t in seen)
    && (forall t :: t in counts ==> counts[t] == Occurrences(seen, t))
    && keys == Distinct(seen)
  }

  /** Counting `tags[j]`, seen for the first time, after `before + tags[..j]`. */
  lemma TallyNew(before: seq<string>, tags: seq<string>, j: nat, counts: map<string, nat>, keys: seq<string>)
    requires j < |tags| && Tally(before + tags[..j], counts, keys) && tags[j] !in counts
    ensures Tally(before + tags[..j + 1], counts[tags[j] := 0][tags[j] := 1], keys + [tags[j]])
  {
    var seen, tag := before + tags[..j], tags[j];
    var next := seen + [tag];
    assert before + tags[..j + 1] == next;
    assert next[..|next| - 1] == seen;
    assert multiset(next) == multiset(seen) + multiset{tag};
    assert counts[tag := 0][tag := 1] == counts[tag := 1];
  }

  /** Counting `tags[j]`, already a key, after `before + tags[..j]`. */
  lemma TallyAgain(before: seq<string>, tags: seq<string>, j: nat, counts: map<string, nat>, keys: seq<string>)
    requires j < |tags| && Tally(before + tags[..j], counts, keys) && tags[j] in counts
    ensures Tally(before + tags[..j + 1], counts[tags[j] := counts[tags[j]] + 1], keys)
  {
    var seen, tag := before + tags[..j], tags[j];
    var next := seen + [tag];
    assert before + tags[..j + 1] == next;
    assert next[..|next| - 1] == seen;
    assert Distinct(next) == keys;
    var c := counts[tag := counts[tag] + 1];
    forall t | t in c ensures c[t] == Occurrences(next, t) {
      assert multiset(next) == multiset(seen) + multiset{tag};
    }
  }

  /** The outer counting loop of `calculateHashtags`, over the records. */
  method CountTags(recs: seq<Token>) returns (counts: map<string, nat>, keys: seq<string>)
    ensures Tally(AllTags(recs), counts, keys)
  {
    counts, keys := map[], [];
    var i := 0;
    while i < |recs|
      invariant 0 <= i <= |recs|
      invariant Tally(AllTags(recs[..i]), counts, keys)
    {
      AllTagsSnoc(recs, i);
      counts, keys := CountRecordTags(AllTags(recs[..i]), recs[i].hashtags, counts, keys);
      i := i + 1;
    }
    assert recs[..i] == recs;
  }

  /** The inner counting loop of `calculateHashtags`, over the tags of one record. */
  method CountRecordTags(ghost before: seq<string>, tags: seq<string>, counts0: map<string, nat>, keys0: seq<string>)
    returns (counts: map<string, nat>, keys: seq<string>)
    requires Tally(before, counts0, keys0)
    ensures Tally(before + tags, counts, keys)
  {
    counts, keys := counts0, keys0;
    var j := 0;
    assert before + tags[..0] == before;
    while j < |tags|
      invariant 0 <= j <= |tags|
      invariant Tally(before + tags[..j], counts, keys)
    {
      var tag := tags[j];
      if tag !in counts {
        TallyNew(before, tags, j, counts, keys);
        counts := counts[tag := 0];
        keys := keys + [tag];
      } else {
        TallyAgain(before, tags, j, counts, keys);
      }
      counts := counts[tag := counts[tag] + 1];
      j := j + 1;
    }
    assert tags[..j] == tags;
  }

  predicate Ascending(indices: seq<string>) {
    forall i, j :: 0 <= i < j < |indices| ==> DecimalValue(indices[i]) < DecimalValue(indices[j])
  }

  /**
   * After `k` keys of `keys`: `indices` holds the array-index keys seen,
   * ascending, and `names` the other keys seen, in insertion order.
   */
  ghost predicate Listed(keys: seq<string>, k: nat, indices: seq<string>, names: seq<string>)
    requires k <= |keys|
  {
    && NoDuplicates(indices) && NoDuplicates(names)
    && (forall i :: 0 <= i < |names| ==> names[i] in keys)
    && (forall t :: t in indices <==> t in keys[..k] && IsArrayIndex(t))
    && (forall t :: t in names <==> t in keys[..k] && !IsArrayIndex(t))
    && Ascending(indices)
    && (forall i, j :: 0 <= i < j < |names| ==> Position(keys, names[i]) < Position(keys, names[j]))
    && (forall t :: t in names ==> Position(keys, t) < k)
  }

  lemma ListIndexKey(keys: seq<string>, k: nat, indices: seq<string>, names: seq<string>, p: nat)
    requires NoDuplicates(keys) && k < |keys| && Listed(keys, k, indices, names)
    requires IsArrayIndex(keys[k]) && p <= |indices|
    requires forall i :: 0 <= i < p ==> DecimalValue(indices[i]) < DecimalValue(keys[k])
    requires forall i :: p <= i < |indices| ==> DecimalValue(keys[k]) < DecimalValue(indices[i])
    ensures Listed(keys, k + 1, indices[..p] + [keys[k]] + indices[p..], names)
  {
    var key := keys[k];
    var next := indices[..p] + [key] + indices[p..];
    assert keys[..k + 1] == keys[..k] + [key];
    PositionOfElement(keys, k);
    assert key !in keys[..k];
    assert forall t :: t in next <==> t in indices || t == key;
    forall i, j | 0 <= i < j < |next| ensures DecimalValue(next[i]) < DecimalValue(next[j]) {
      if j < p {
        assert next[i] == indices[i] && next[j] == indices[j];
      } else if i > p {
        assert next[i] == indices[i - 1] && next[j] == indices[j - 1];
      } else if i < p {
        assert next[i] == indices[i];
      }
    }
  }

  lemma ListNameKey(keys: seq<string>, k: nat, indices: seq<string>, names: seq<string>)
    requires NoDuplicates(keys) && k < |keys| && Listed(keys, k, indices, names)
    requires !IsArrayIndex(keys[k])
    ensures Listed(keys, k + 1, indices, names + [keys[k]])
  {
    var key := keys[k];
    assert keys[..k + 1] == keys[..k] + [key];
    PositionOfElement(keys, k);
    assert key !in keys[..k];
  }

  lemma IndicesAreArrayIndices(keys: seq<string>, k: nat, indices: seq<string>, names: seq<string>)
    requires NoDuplicates(keys) && k < |keys| && Listed(keys, k, indices, names)
    ensures keys[k] !in indices
    ensures forall t :: t in indices ==> IsArrayIndex(t)
  {
    PositionOfElement(keys, k);
  }

  /**
   * The order in which `Object.entries` lists the keys of an ordinary object
   * whose keys were inserted in the order `keys`: array indices ascending,
   * then the other keys in insertion order.
   */
  method EntriesOrder(keys: seq<string>) returns (entries: seq<string>)
    requires NoDuplicates(keys)
    ensures NoDuplicates(entries)
    ensures forall t :: t in entries <==> t in keys
    ensures forall i, j :: 0 <= i < j < |entries| ==> KeyBefore(keys, entries[i], entries[j])
  {
    var indices: seq<string> := [];
    var names: seq<string> := [];
    for k := 0 to |keys|
      invariant Listed(keys, k, indices, names)
    {
      var key := keys[k];
      if IsArrayIndex(key) {
        IndicesAreArrayIndices(keys, k, indices, names);
        var p := InsertionPoint(indices, key);
        ListIndexKey(keys, k, indices, names, p);
        indices := indices[..p] + [key] + indices[p..];
      } else {
        ListNameKey(keys, k, indices, names);
        names := names + [key];
      }
    }
    entries := indices + names;
    ListedEntries(keys, indices, names);
  }

  lemma ListedEntries(keys: seq<string>, indices: seq<string>, names: seq<string>)
    requires Listed(keys, |keys|, indices, names)
    ensures NoDuplicates(indices + names)
    ensures forall t :: t in indices + names <==> t in keys
    ensures forall i, j :: 0 <= i < j < |indices + names| ==> KeyBefore(keys, (indices + names)[i], (indices + names)[j])
  {
    assert keys[..|keys|] == keys;
    var e := indices + names;
    forall i, j | 0 <= i < j < |e| ensures KeyBefore(keys, e[i], e[j]) {
      if j < |indices| {
        assert e[i] == indices[i] && e[j] == indices[j];
      } else if i >= |indices| {
        assert e[i] == names[i - |indices|] && e[j] == names[j - |indices|];
      } else {
        assert e[i] == indices[i] && e[j] == names[j - |indices|];
      }
    }
  }

  /** Where an array-index key goes among the array-index keys already listed. */
  method InsertionPoint(indices: seq<string>, key: string) returns (p: nat)
    requires IsArrayIndex(key) && key !in indices
    requires forall t :: t in indices ==> IsArrayIndex(t)
    requires Ascending(indices)
    ensures p <= |indices|
    ensures forall i :: 0 <= i < p ==> DecimalValue(indices[i]) < DecimalValue(key)
    ensures forall i :: p <= i < |indices| ==> DecimalValue(key) < DecimalValue(indices[i])
  {
    p := 0;
    while p < |indices| && DecimalValue(indices[p]) < DecimalValue(key)
      invariant p <= |indices|
      invariant forall i :: 0 <= i < p ==> DecimalValue(indices[i]) < DecimalValue(key)
    {
      p := p + 1;
    }
    if p < |indices| {
      // two array indices with the same value are the same numeral
      var q := indices[p];
      assert q in indices && q != key;
      assert q == NatToString(DecimalValue(q)) && key == NatToString(DecimalValue(key));
    }
  }

  /** Ranking order among the entries: descending count, then the order of `entries`. */
  ghost predicate CountOrdered(entries: seq<string>, counts: map<string, nat>, sorted: seq<string>)
    requires forall i :: 0 <= i < |sorted| ==> sorted[i] in entries && sorted[i] in counts
  {
    forall i, j :: 0 <= i < j < |sorted| ==> CountBefore(entries, counts, sorted[i], sorted[j])
  }

  /** `a` has the higher count, or the same count and comes first in `entries`. */
  ghost predicate CountBefore(entries: seq<string>, counts: map<string, nat>, a: string, b: string)
    requires a in entries && a in counts && b in entries && b in counts
  {
    || counts[a] > counts[b]
    || (counts[a] == counts[b] && Position(entries, a) < Position(entries, b))
  }

  /** After `k` entries, `sorted` holds exactly those, in ranking order. */
  ghost predicate SortedSoFar(entries: seq<string>, counts: map<string, nat>, k: nat, sorted: seq<string>)
    requires k <= |entries|
  {
    && NoDuplicates(sorted)
    && (forall i :: 0 <= i < |sorted| ==> sorted[i] in entries && sorted[i] in counts)
    && (forall t :: t in sorted <==> t in entries[..k])
    && (forall t :: t in sorted ==> Position(entries, t) < k)
    && CountOrdered(entries, counts, sorted)
  }

  lemma InsertByCount(entries: seq<string>, counts: map<string, nat>, k: nat, sorted: seq<string>, p: nat)
    requires NoDuplicates(entries) && forall t :: t in entries ==> t in counts
    requires k < |entries| && SortedSoFar(entries, counts, k, sorted)
    requires p <= |sorted|
    requires forall i :: 0 <= i < p ==> counts[sorted[i]] >= counts[entries[k]]
    requires p < |sorted| ==> counts[sorted[p]] < counts[entries[k]]
    ensures SortedSoFar(entries, counts, k + 1, sorted[..p] + [entries[k]] + sorted[p..])
  {
    var e := entries[k];
    var next := sorted[..p] + [e] + sorted[p..];
    assert entries[..k + 1] == entries[..k] + [e];
    PositionOfElement(entries, k);
    assert e !in sorted;
    assert forall t :: t in next <==> t in sorted || t == e;
    forall x | 0 <= x < |sorted| ensures Position(entries, sorted[x]) < k {
      assert sorted[x] in sorted;
    }
    InsertByCountOrdered(entries, counts, k, sorted, p);
  }

  lemma InsertByCountOrdered(entries: seq<string>, counts: map<string, nat>, k: nat, sorted: seq<string>, p: nat)
    requires k < |entries| && entries[k] in counts && Position(entries, entries[k]) == k
    requires forall x :: 0 <= x < |sorted| ==>
      sorted[x] in entries && sorted[x] in counts && Position(entries, sorted[x]) < k
    requires CountOrdered(entries, counts, sorted)
    requires p <= |sorted|
    requires forall i :: 0 <= i < p ==> counts[sorted[i]] >= counts[entries[k]]
    requires p < |sorted| ==> counts[sorted[p]] < counts[entries[k]]
    ensures CountOrdered(entries, counts, sorted[..p] + [entries[k]] + sorted[p..])
  {
    var e := entries[k];
    var next := sorted[..p] + [e] + sorted[p..];
    forall i | p <= i < |sorted| ensures counts[sorted[i]] < counts[e] {
      if i > p {
        assert CountBefore(entries, counts, sorted[p], sorted[i]);
      }
    }
    InsertAt(sorted, p, e);
    forall i, j | 0 <= i < j < |next| ensures CountBefore(entries, counts, next[i], next[j]) {
      if j < p {
        assert CountBefore(entries, counts, sorted[i], sorted[j]);
      } else if i > p {
        assert CountBefore(entries, counts, sorted[i - 1], sorted[j - 1]);
      }
    }
  }

  /** Where the elements of `s` go once `e` is inserted at `p`. */
  lemma InsertAt(s: seq<string>, p: nat, e: string)
    requires p <= |s|
    ensures |s[..p] + [e] + s[p..]| == |s| + 1
    ensures forall x :: 0 <= x < p ==> (s[..p] + [e] + s[p..])[x] == s[x]
    ensures (s[..p] + [e] + s[p..])[p] == e
    ensures forall x :: p < x <= |s| ==> (s[..p] + [e] + s[p..])[x] == s[x - 1]
  {
    var next := s[..p] + [e] + s[p..];
    forall x | p < x <= |s| ensures next[x] == s[x - 1] {
      assert next[x] == s[p..][x - p - 1];
    }
  }

  /**
   * `.sort((a, b) => b[1] - a[1])`, a stable sort: descending count, and
   * among equal counts the order of `entries`.
   */
  method SortByCountDescending(entries: seq<string>, counts: map<string, nat>) returns (sorted: seq<string>)
    requires NoDuplicates(entries)
    requires forall t :: t in entries ==> t in counts
    ensures NoDuplicates(sorted)
    ensures forall t :: t in sorted <==> t in entries
    ensures forall i :: 0 <= i < |sorted| ==> sorted[i] in entries && sorted[i] in counts
    ensures CountOrdered(entries, counts, sorted)
  {
    sorted := [];
    for k := 0 to |entries|
      invariant SortedSoFar(entries, counts, k, sorted)
    {
      var e := entries[k];
      var p := 0;
      while p < |sorted| && counts[sorted[p]] >= counts[e]
        invariant p <= |sorted|
        invariant forall i :: 0 <= i < p ==> counts[sorted[i]] >= counts[e]
      {
        p := p + 1;
      }
      InsertByCount(entries, counts, k, sorted, p);
      sorted := sorted[..p] + [e] + sorted[p..];
    }
    assert entries[..|entries|] == entries;
  }

  /**
   * The names a plain object `{}` inherits from `Object.prototype`. Each is
   * a run of word characters, so each can be a tag.
   */
  const InheritedNames: set<string> := {
    "constructor", "hasOwnProperty", "isPrototypeOf", "propertyIsEnumerable",
    "toLocaleString", "toString", "valueOf", "__defineGetter__",
    "__defineSetter__", "__lookupGetter__", "__lookupSetter__", "__proto__"}

  /** A count as the count object `{}` of the server holds it: a number, or `NaN`. */
  datatype Count = Num(n: nat) | NaN

  /** The own keys of that object with their values, and the keys in insertion order. */
  datatype CountObject = CountObject(counts: map<string, Count>, keys: seq<string>)

  /**
   * One visit of `tag` by the counting loop as written, on an object that
   * inherits from `Object.prototype`. An own key is incremented (`NaN` stays
   * `NaN`). An inherited name is not `== null`, so no 0 is stored, and `++`
   * turns the inherited method into `NaN`, stored as a new own key; the
   * `__proto__` setter ignores a number, so that tag never becomes a key.
   */
  function VisitAsWritten(c: CountObject, tag: string): CountObject {
    if tag in c.counts then
      c.(counts := c.counts[tag := if c.counts[tag].Num? then Num(c.counts[tag].n + 1) else NaN])
    else if tag == "__proto__" then c
    else if tag in InheritedNames then CountObject(c.counts[tag := NaN], c.keys + [tag])
    else CountObject(c.counts[tag := Num(1)], c.keys + [tag])
  }

  /**
   * The count object after the loops of `calculateHashtags` as written have
   * visited `tags`: every tag but `__proto__` is a key, an inherited name
   * counts `NaN`, and any other tag its number of occurrences.
   */
  function CountAsWritten(tags: seq<string>): (c: CountObject)
    ensures forall t :: t in c.counts <==> t in tags && t != "__proto__"
    ensures forall t :: t in c.keys <==> t in c.counts
    ensures forall t :: t in c.counts && t in InheritedNames ==> c.counts[t] == NaN
    ensures forall t :: t in c.counts && t !in InheritedNames ==> c.counts[t] == Num(Occurrences(tags, t))
  {
    if tags == [] then CountObject(map[], [])
    else
      var prefix, last := tags[..|tags| - 1], tags[|tags| - 1];
      assert tags == prefix + [last];
      VisitKeepsTally(prefix, CountAsWritten(prefix), last);
      VisitAsWritten(CountAsWritten(prefix), last)
  }

  /**
   * When no tag names an inherited member, the count object as written is
   * the corrected tally: the same keys in the same order, with the same counts.
   */
  lemma {:induction false} CountAsWrittenAgrees(tags: seq<string>)
    requires forall t :: t in tags ==> t !in InheritedNames
    ensures CountAsWritten(tags).keys == Distinct(tags)
    ensures forall t :: t in tags ==> t in CountAsWritten(tags).counts
    ensures forall t :: t in tags ==> CountAsWritten(tags).counts[t] == Num(Occurrences(tags, t))
  {
    assert "__proto__" in InheritedNames;
    if tags != [] {
      var prefix, last := tags[..|tags| - 1], tags[|tags| - 1];
      assert tags == prefix + [last];
      CountAsWrittenAgrees(prefix);
    }
  }

  /** The contract of `CountAsWritten`, for the tags `seen` so far. */
  ghost predicate TallyAsWritten(seen: seq<string>, c: CountObject) {
    && (forall t :: t in c.counts <==> t in seen && t != "__proto__")
    && (forall t :: t in c.keys <==> t in c.counts)
    && (forall t :: t in c.counts && t in InheritedNames ==> c.counts[t] == NaN)
    && (forall t :: t in c.counts && t !in InheritedNames ==> c.counts[t] == Num(Occurrences(seen, t)))
  }

  lemma VisitKeepsTally(seen: seq<string>, c: CountObject, tag: string)
    requires TallyAsWritten(seen, c)
    ensures TallyAsWritten(seen + [tag], VisitAsWritten(c, tag))
  {
    var next := seen + [tag];
    assert multiset(next) == multiset(seen) + multiset{tag};
    if tag in c.counts {
      VisitOwnKey(seen, c, tag);
    } else if tag == "__proto__" {
      assert forall t :: t in next && t != "__proto__" <==> t in seen && t != "__proto__";
      assert forall t :: t != tag ==> Occurrences(next, t) == Occurrences(seen, t);
    } else {
      VisitNewKey(seen, c, tag);
    }
  }

  /** Visiting a tag that is already an own key. */
  lemma VisitOwnKey(seen: seq<string>, c: CountObject, tag: string)
    requires TallyAsWritten(seen, c) && tag in c.counts
    ensures TallyAsWritten(seen + [tag], VisitAsWritten(c, tag))
  {
    var d, next := VisitAsWritten(c, tag), seen + [tag];
    assert multiset(next) == multiset(seen) + multiset{tag};
    forall t | t in d.counts && t !in InheritedNames
      ensures d.counts[t] == Num(Occurrences(next, t))
    {
      if t != tag {
        assert Occurrences(next, t) == Occurrences(seen, t);
      }
    }
  }

  /** Visiting a tag that is not yet an own key and is not `__proto__`. */
  lemma VisitNewKey(seen: seq<string>, c: CountObject, tag: string)
    requires TallyAsWritten(seen, c) && tag !in c.counts && tag != "__proto__"
    ensures TallyAsWritten(seen + [tag], VisitAsWritten(c, tag))
  {
    var d, next := VisitAsWritten(c, tag), seen + [tag];
    assert tag !in seen;
    assert multiset(next) == multiset(seen) + multiset{tag};
    forall t | t in d.counts && t !in InheritedNames
      ensures d.counts[t] == Num(Occurrences(next, t))
    {
      if t != tag {
        assert Occurrences(next, t) == Occurrences(seen, t);
      }
    }
  }

  /**
   * As written, a tag `__proto__` is counted nowhere, so whatever order the
   * sort gives the own keys, the result is not the ranking of the tags.
   */
  lemma ProtoTagDroppedAsWritten(tags: seq<string>, r: seq<string>)
    requires "__proto__" in tags
    requires forall i :: 0 <= i < |r| ==> r[i] in CountAsWritten(tags).keys
    ensures "__proto__" !in r
    ensures !IsRanking(tags, r)
  {
  }

  /**
   * As written, a tag naming another inherited method, such as `toString`,
   * is a key with count `NaN`, for which the comparator `b[1] - a[1]` is `NaN`.
   */
  lemma InheritedTagCountsNaNAsWritten(tags: seq<string>, t: string)
    requires t in tags && t in InheritedNames && t != "__proto__"
    ensures t in CountAsWritten(tags).keys && CountAsWritten(tags).counts[t] == NaN
  {
  }

  /** A `hashtags` field `__proto__` is normalised to that one tag. */
  lemma ProtoIsATag()
    ensures "__proto__" in InheritedNames
    ensures ParseHashtags(Some("__proto__")) == ["__proto__"]
  {
    var tag := "__proto__";
    assert forall i :: 0 <= i < |tag| ==> IsWordChar(tag[i]);
    ParseJoinRoundTrip([tag]);
  }
}
