/**
 * The three handlers over the store: the token list (`GET /tokens`), the
 * single-token view (`GET /tokens/:tokenId`) and creation (`POST /tokens`).
 */
module Api {
  import opened Options
  import opened JsText
  import opened Records
  import opened Errors
  import opened Ranking
  import opened Presentation
  import opened Store
  import opened Ingest

  datatype TokenList = TokenList(tokens: seq<TokenView>, hashtags: seq<string>)

  /** `GET /tokens`: every record, newest first, formatted, with the ranking. */
  function ListTokens(store: TokenStore, cfg: Config): (r: TokenList)
    requires store.Valid()
    reads store
    ensures |r.tokens| == |store.all|
    ensures forall i :: 0 <= i < |r.tokens| ==> r.tokens[i] == FormatToken(cfg, store.all[i])
    ensures IsRanking(AllTags(store.all), r.hashtags)
  {
    TokenList(seq(|store.all|, i requires 0 <= i < |store.all| reads store => FormatToken(cfg, store.all[i])), store.hashtags)
  }

  const TokenMissing := "token does not exist"

  /**
   * `GET /tokens/:tokenId`: the parameter is read with `parseInt`, and the
   * resulting number is checked again with `parseInt` before the lookup.
   */
  function GetToken(store: TokenStore, cfg: Config, param: string): (r: Result<TokenView, HttpError>)
    reads store
    ensures r.Ok? <==> ParseInt(param).Some? && ParseInt(param).value in store.byTokenId
    ensures r.Ok? ==> r.value == TokenDetails(cfg, store.byTokenId[ParseInt(param).value])
    ensures r.Err? ==> ErrorReply(r.error).status == 422
    ensures r.Err? ==> (r.error.message == InvalidTokenId <==> ParseInt(param).None?)
  {
    var id := ParseInt(param);
    if id.None? then Err(Rejection(InvalidTokenId))
    else
      ParseIntOfIntToString(id.value, []);
      assert IntToString(id.value) + [] == IntToString(id.value);
      if ParseInt(IntToString(id.value)).None? then Err(Rejection(InvalidTokenId))
      else if id.value !in store.byTokenId then Err(Rejection(TokenMissing))
      else Ok(TokenDetails(cfg, store.byTokenId[id.value]))
  }

  /**
   * The `external_url` of a listed token ends with a parameter that the
   * single-token view resolves to a token with the same id, and with
   * distinct ids to that very record.
   */
  lemma ExternalUrlResolves(store: TokenStore, cfg: Config, t: Token)
    requires store.Valid() && t in store.all
    ensures var url := FormatToken(cfg, t).externalUrl;
      && GetToken(store, cfg, url[|cfg.externalUrlBase|..]).Ok?
      && GetToken(store, cfg, url[|cfg.externalUrlBase|..]).value.tokenId == t.tokenId
      && (UniqueIds(store.all) ==> GetToken(store, cfg, url[|cfg.externalUrlBase|..]).value == TokenDetails(cfg, t))
  {
    var url := FormatToken(cfg, t).externalUrl;
    var r := GetToken(store, cfg, url[|cfg.externalUrlBase|..]);
    assert t.tokenId in store.byTokenId;
    if UniqueIds(store.all) {
      IndexFromInvariant(store.all, store.byTokenId);
      var k :| 0 <= k < |store.all| && store.all[k] == t;
      IndexOfLastWins(store.all, k);
    }
  }

  /**
   * `POST /tokens`: read the parts against the current index and, if the
   * request is accepted, add the record to the store. A rejected request
   * leaves the store as it was.
   */
  method CreateToken(store: TokenStore, parts: seq<Part>, now: int) returns (outcome: Result<Token, HttpError>, written: seq<FileWrite>)
    requires store.Valid()
    modifies store
    ensures store.Valid()
    ensures outcome == CreateOutcome(parts, old(store.byTokenId), now)
    ensures written == Written(ProcessParts(parts, old(store.byTokenId)))
    ensures outcome.Ok? ==> store.all == [outcome.value] + old(store.all)
    ensures outcome.Ok? ==> store.byTokenId == old(store.byTokenId)[outcome.value.tokenId := outcome.value]
    ensures outcome.Ok? ==> outcome.value.tokenId !in old(store.byTokenId)
    ensures outcome.Err? ==> store.all == old(store.all) && store.byTokenId == old(store.byTokenId)
    ensures outcome.Err? ==> store.hashtags == old(store.hashtags)
    ensures old(UniqueIds(store.all)) ==> UniqueIds(store.all)
  {
    var run := ReadParts(parts, store.byTokenId);
    written := Written(run);
    match run
    case Stopped(e, _) =>
      outcome := Err(e);
    case Running(st) =>
      outcome := Assemble(st, now);
      if outcome.Ok? {
        CreatedTokenIsFresh(parts, store.byTokenId, now);
        if UniqueIds(store.all) {
          FreshIdKeepsIdsUnique(store.all, store.byTokenId, outcome.value);
        }
        store.AddTokenData(outcome.value);
      }
  }
}
