/**
 * The token record as the store keeps it and as `data.json` holds it, and the
 * names of the two image files a token owns.
 */
module Records {
  import opened Options
  import opened JsText

  /**
   * A token record. A text field the creation request did not carry is `None`
   * (`undefined` in the server). `dateCreated` is the creation instant in
   * milliseconds since the epoch; the server stores it as ISO-8601 text.
   */
  datatype Token = Token(
    tokenId: int,
    name: Option<string>,
    artist: Option<string>,
    hashtags: seq<string>,
    description: Option<string>,
    owner: Option<string>,
    txHash: Option<string>,
    image: Option<string>,
    dateCreated: int)

  /** How string concatenation renders a value that may be `undefined`. */
  function TextOf(v: Option<string>): string {
    if v.Some? then v.value else "undefined"
  }

  /** How string concatenation renders a token id that may be `undefined`. */
  function IdText(id: Option<int>): string {
    if id.Some? then IntToString(id.value) else "undefined"
  }

  /** The full image is stored as `<tokenId><extension of the uploaded file name>`. */
  function ImageFileName(tokenId: int, uploadedName: string): (r: string)
    ensures ParseInt(r) == Some(tokenId)
  {
    var ext := ExtName(uploadedName);
    ParseIntOfIntToString(tokenId, ext);
    IntToString(tokenId) + ext
  }

  /**
   * The preview is always stored as `<tokenId>.jpg`, whatever its content;
   * with no token id it is `undefined.jpg`, which names no token.
   */
  function PreviewFileName(tokenId: Option<int>): (r: string)
    ensures ParseInt(r) == tokenId
    ensures |r| >= 4 && r[|r| - 4..] == ".jpg"
  {
    var r := IdText(tokenId) + ".jpg";
    assert ParseInt(r) == tokenId by {
      if tokenId.Some? {
        ParseIntOfIntToString(tokenId.value, ".jpg");
      } else {
        UndefinedIsNotANumber(".jpg");
      }
    }
    r
  }

  /** `parseInt` of text that starts with `undefined` is `NaN`. */
  lemma UndefinedIsNotANumber(rest: string)
    ensures ParseInt("undefined" + rest) == None
  {
    var s := "undefined" + rest;
    assert s[0] == 'u' && TrimStart(s) == s;
    assert DecimalPrefix(s) == [];
  }
}
