/**
 * How a stored token is shown to clients: `formatToken` (the record with its
 * image fields turned into URLs) and the `attributes` list of the single-token
 * view.
 */
module Presentation {
  import opened Options
  import opened JsText
  import opened Records
  import Hashtags

  /** The configuration entries the views use. */
  datatype Config = Config(
    imageBasePath: string,
    imageFullRoute: string,
    imagePreviewRoute: string,
    externalUrlBase: string)

  datatype AttributeValue = Timestamp(seconds: int) | Text(text: Option<string>)

  datatype Attribute = Attribute(traitType: string, displayType: Option<string>, value: AttributeValue)

  /**
   * A token as clients see it: the fields of the record, `fullimage` (the URL
   * of the full image), `image` (now the URL of the preview), `externalUrl`
   * (`external_url`) and, in the single-token view only, `attributes`.
   */
  datatype TokenView = TokenView(
    tokenId: int,
    name: Option<string>,
    artist: Option<string>,
    hashtags: seq<string>,
    description: Option<string>,
    owner: Option<string>,
    txHash: Option<string>,
    dateCreated: int,
    fullimage: string,
    image: string,
    externalUrl: string,
    attributes: Option<seq<Attribute>>)

  /**
   * `formatToken`: a copy of the record whose `image` file name becomes the
   * full-image URL, whose `image` becomes the preview URL and which links to
   * the token's external page. The record itself is not changed.
   */
  function FormatToken(cfg: Config, t: Token): (v: TokenView)
    ensures v.tokenId == t.tokenId && v.name == t.name && v.artist == t.artist
    ensures v.hashtags == t.hashtags && v.description == t.description
    ensures v.owner == t.owner && v.txHash == t.txHash && v.dateCreated == t.dateCreated
    ensures v.attributes.None?
    ensures v.fullimage == cfg.imageBasePath + cfg.imageFullRoute + TextOf(t.image)
    ensures v.image == cfg.imageBasePath + cfg.imagePreviewRoute + PreviewFileName(Some(t.tokenId))
    ensures |v.externalUrl| > |cfg.externalUrlBase| && v.externalUrl[..|cfg.externalUrlBase|] == cfg.externalUrlBase
    ensures ParseInt(v.externalUrl[|cfg.externalUrlBase|..]) == Some(t.tokenId)
  {
    var url := cfg.externalUrlBase + IntToString(t.tokenId);
    UrlNamesToken(cfg.externalUrlBase, t.tokenId);
    TokenView(
      t.tokenId, t.name, t.artist, t.hashtags, t.description, t.owner, t.txHash, t.dateCreated,
      cfg.imageBasePath + cfg.imageFullRoute + TextOf(t.image),
      cfg.imageBasePath + cfg.imagePreviewRoute + PreviewFileName(Some(t.tokenId)),
      url,
      None)
  }

  /** A URL that ends with the numeral of `id` names `id`. */
  lemma UrlNamesToken(base: string, id: int)
    ensures |base + IntToString(id)| > |base|
    ensures (base + IntToString(id))[..|base|] == base
    ensures ParseInt((base + IntToString(id))[|base|..]) == Some(id)
  {
    var url := base + IntToString(id);
    ParseIntOfIntToString(id, []);
    assert url[|base|..] == IntToString(id) + [];
  }

  const DateTrait := "Date of creation"
  const ArtistTrait := "Artist"
  const TagsTrait := "Tags"

  /**
   * The `attributes` of the single-token view of `t`: its creation date in
   * whole seconds, its artist and, when it has any, its tags joined with
   * spaces.
   */
  function Attributes(t: Token): (attrs: seq<Attribute>)
    ensures 2 <= |attrs| <= 3
    ensures attrs[0].traitType == DateTrait && attrs[0].displayType == Some("date")
    ensures attrs[0].value.Timestamp?
    ensures attrs[0].value.seconds * 1000 <= t.dateCreated < attrs[0].value.seconds * 1000 + 1000
    ensures attrs[1] == Attribute(ArtistTrait, None, Text(t.artist))
    ensures |attrs| == 3 <==> t.hashtags != []
    ensures |attrs| == 3 ==> attrs[2] == Attribute(TagsTrait, None, Text(Some(Join(t.hashtags, " "))))
  {
    var base := [
      Attribute(DateTrait, Some("date"), Timestamp(t.dateCreated / 1000)),
      Attribute(ArtistTrait, None, Text(t.artist))
    ];
    if |t.hashtags| > 0 then base + [Attribute(TagsTrait, None, Text(Some(Join(t.hashtags, " "))))]
    else base
  }

  /** The single-token view: the formatted token with its attributes. */
  function TokenDetails(cfg: Config, t: Token): TokenView {
    FormatToken(cfg, t).(attributes := Some(Attributes(t)))
  }

  /**
   * A client that normalises the `Tags` attribute the way the server
   * normalises a `hashtags` field recovers the token's tags.
   */
  lemma TagsAttributeRoundTrip(t: Token)
    requires forall i :: 0 <= i < |t.hashtags| ==> Hashtags.IsTag(t.hashtags[i])
    requires t.hashtags != []
    ensures Attributes(t)[2].value.text.Some?
    ensures Hashtags.ParseHashtags(Attributes(t)[2].value.text) == t.hashtags
  {
    Hashtags.ParseJoinRoundTrip(t.hashtags);
  }
}
