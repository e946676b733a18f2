/**
 * The in-memory token store: the records in `data.json` order (`all`), the
 * index by token id (`byTokenId`) and the hashtag ranking (`hashtags`).
 */
module Store {
  import opened Records
  import opened Ranking

  /** Every record's id is a key, and every key leads to a record of `all` carrying it. */
  ghost predicate IndexCovers(all: seq<Token>, byTokenId: map<int, Token>) {
    && (forall t :: t in all ==> t.tokenId in byTokenId)
    && (forall id :: id in byTokenId ==> byTokenId[id] in all && byTokenId[id].tokenId == id)
  }

  predicate UniqueIds(recs: seq<Token>) {
    forall i, j :: 0 <= i < j < |recs| ==> recs[i].tokenId != recs[j].tokenId
  }

  /**
   * The index `readData` builds from the records in file order: a later
   * record with the same id replaces an earlier one.
   */
  function IndexOf(recs: seq<Token>): (m: map<int, Token>)
    ensures IndexCovers(recs, m)
  {
    if recs == [] then map[]
    else
      var last := recs[|recs| - 1];
      var m := IndexOf(recs[..|recs| - 1]);
      assert recs == recs[..|recs| - 1] + [last];
      m[last.tokenId := last]
  }

  /** When ids repeat, the index holds the last record with that id. */
  lemma {:induction false} IndexOfLastWins(recs: seq<Token>, i: nat)
    requires i < |recs|
    requires forall j :: i < j < |recs| ==> recs[j].tokenId != recs[i].tokenId
    ensures IndexOf(recs)[recs[i].tokenId] == recs[i]
  {
    if i < |recs| - 1 {
      var prefix := recs[..|recs| - 1];
      assert prefix[i] == recs[i];
      IndexOfLastWins(prefix, i);
    }
  }

  /**
   * With distinct ids, any covering index is the one `readData` would build
   * from the same records.
   */
  lemma IndexFromInvariant(all: seq<Token>, byTokenId: map<int, Token>)
    requires UniqueIds(all) && IndexCovers(all, byTokenId)
    ensures byTokenId == IndexOf(all)
  {
    var m := IndexOf(all);
    assert forall id :: id in byTokenId <==> id in m;
    assert forall a, b :: 0 <= a < |all| && 0 <= b < |all| && all[a].tokenId == all[b].tokenId ==> a == b;
    forall id | id in m ensures byTokenId[id] == m[id] {
      var a :| 0 <= a < |all| && all[a] == byTokenId[id];
      var b :| 0 <= b < |all| && all[b] == m[id];
      assert a == b;
    }
  }

  /** Adding a record whose id is not in the index keeps the ids distinct. */
  lemma FreshIdKeepsIdsUnique(all: seq<Token>, byTokenId: map<int, Token>, d: Token)
    requires UniqueIds(all) && IndexCovers(all, byTokenId) && d.tokenId !in byTokenId
    ensures UniqueIds([d] + all)
  {
    var next := [d] + all;
    forall i, j | 0 <= i < j < |next| ensures next[i].tokenId != next[j].tokenId {
      assert next[j] == all[j - 1] && next[j] in all;
      if i > 0 {
        assert next[i] == all[i - 1];
      }
    }
  }

  /** `readData`: the records of `data.json` and the index built from them. */
  method ReadData(stored: seq<Token>) returns (all: seq<Token>, byTokenId: map<int, Token>)
    ensures all == stored
    ensures byTokenId == IndexOf(stored)
  {
    all := stored;
    byTokenId := map[];
    for i := 0 to |stored|
      invariant byTokenId == IndexOf(stored[..i])
    {
      assert stored[..i + 1][..i] == stored[..i];
      byTokenId := byTokenId[stored[i].tokenId := stored[i]];
    }
    assert stored[..|stored|] == stored;
  }

  /**
   * The server's `data` object. `persisted` is the content of `data.json`,
   * which every change rewrites in full.
   */
  class TokenStore {
    var all: seq<Token>
    var byTokenId: map<int, Token>
    var hashtags: seq<string>
    ghost var persisted: seq<Token>

    ghost predicate Valid()
      reads this
    {
      && IndexCovers(all, byTokenId)
      && IsRanking(AllTags(all), hashtags)
      && persisted == all
    }

    /** Start-up: `data = readData()` followed by the first ranking. */
    constructor Load(stored: seq<Token>)
      ensures Valid()
      ensures all == stored && byTokenId == IndexOf(stored) && persisted == stored
    {
      var recs, index := ReadData(stored);
      var ranking := CalculateHashtags(recs);
      all := recs;
      byTokenId := index;
      hashtags := ranking;
      persisted := recs;
    }

    /**
     * `addTokenData`: the record goes to the front of `all` and into the
     * index, the ranking is recomputed and the store written back.
     */
    method AddTokenData(d: Token)
      requires Valid()
      modifies this
      ensures Valid()
      ensures all == [d] + old(all) && all[1..] == old(all)
      ensures byTokenId == old(byTokenId)[d.tokenId := d]
      ensures IsRanking(AllTags(all), hashtags)
      ensures persisted == all
    {
      all := [d] + all;
      byTokenId := byTokenId[d.tokenId := d];
      hashtags := CalculateHashtags(all);
      persisted := all;
    }
  }

  /**
   * The ranking the store keeps is the one `calculateHashtags` computes from
   * its records: any two rankings of the same records agree.
   */
  lemma StoredRankingIsCalculated(store: TokenStore, ranking: seq<string>)
    requires store.Valid() && IsRanking(AllTags(store.all), ranking)
    ensures store.hashtags == ranking
  {
    RankingIsUnique(AllTags(store.all), store.hashtags, ranking);
  }

  /**
   * With distinct ids, restarting the server (reading back `data.json`)
   * rebuilds the index the store holds.
   */
  lemma ReloadRebuildsIndex(store: TokenStore)
    requires store.Valid() && UniqueIds(store.all)
    ensures IndexOf(store.persisted) == store.byTokenId
  {
    IndexFromInvariant(store.all, store.byTokenId);
  }
}
