/**
 * The creation request (`POST /tokens`): the multipart parts are read in
 * arrival order, each updating the handler's local state; a bad or taken
 * token id stops the request, and the record is assembled from what was read.
 */
module Ingest {
  import opened Options
  import opened JsText
  import opened Records
  import opened Hashtags
  import opened Errors

  /** A multipart part: a plain field with its text, or an uploaded file with its name. */
  datatype Part = Field(fieldname: string, value: string) | File(fieldname: string, filename: string) {
    /** `part.value`: a file part has none. */
    function Value(): Option<string> {
      if Field? then Some(value) else None
    }
  }

  datatype Directory = FullImages | Previews

  /** A file the handler streams an upload into. */
  datatype FileWrite = FileWrite(dir: Directory, name: string)

  /**
   * The handler's locals while reading parts: `params`, `tokenId`,
   * `hashtags`, `imagePath`, and the files written so far.
   */
  datatype PartsState = PartsState(
    params: map<string, Option<string>>,
    tokenId: Option<int>,
    hashtags: Option<seq<string>>,
    imagePath: Option<string>,
    written: seq<FileWrite>)

  const Initial := PartsState(map[], None, None, None, [])

  /** Reading goes on, or has stopped with an error after writing `written`. */
  datatype Run = Running(st: PartsState) | Stopped(error: HttpError, written: seq<FileWrite>)

  const InvalidTokenId := "invalid token id"
  const TokenIdExists := "tokenId already exists"

  /**
   * One iteration of the part loop. A `tokenId` part must parse and must not
   * be taken; `hashtags` is normalised; `image` and `preview` are written
   * under names derived from the token id read so far. An `image` part before
   * any `tokenId`, or an `image`/`preview` part that carries no file, throws
   * an exception with no status code, which the error handler answers with 500.
   */
  function Step(st: PartsState, p: Part, index: map<int, Token>): (r: Run)
    ensures r.Running? ==> r.st.params == st.params[p.fieldname := p.Value()]
    ensures r.Stopped? ==> r.written == st.written
    ensures p.fieldname == "tokenId" ==>
      (r.Running? <==> ParseInt(TextOf(p.Value())).Some? && ParseInt(TextOf(p.Value())).value !in index)
    ensures p.fieldname == "tokenId" && r.Running? ==> r.st.tokenId == ParseInt(TextOf(p.Value()))
    ensures p.fieldname == "tokenId" && r.Stopped? ==>
      r.error == Rejection(if ParseInt(TextOf(p.Value())).None? then InvalidTokenId else TokenIdExists)
    ensures p.fieldname != "tokenId" && r.Running? ==> r.st.tokenId == st.tokenId
    ensures p.fieldname == "hashtags" ==> r.Running? && r.st.hashtags == Some(ParseHashtags(p.Value()))
    ensures p.fieldname != "hashtags" && r.Running? ==> r.st.hashtags == st.hashtags
    ensures p.fieldname == "image" ==> (r.Stopped? <==> st.tokenId.None? || p.Field?)
    ensures p.fieldname == "image" && r.Running? ==>
      && r.st.imagePath == Some(ImageFileName(st.tokenId.value, p.filename))
      && r.st.written == st.written + [FileWrite(FullImages, ImageFileName(st.tokenId.value, p.filename))]
    ensures p.fieldname == "preview" ==> (r.Stopped? <==> p.Field?)
    ensures p.fieldname == "preview" && r.Running? ==>
      r.st.written == st.written + [FileWrite(Previews, PreviewFileName(st.tokenId))]
    ensures (p.fieldname == "image" || p.fieldname == "preview") && r.Stopped? ==>
      !r.error.validation && r.error.statusCode.None?
    ensures p.fieldname != "image" && r.Running? ==> r.st.imagePath == st.imagePath
    ensures p.fieldname != "image" && p.fieldname != "preview" && r.Running? ==> r.st.written == st.written
    ensures p.fieldname != "tokenId" && p.fieldname != "image" && p.fieldname != "preview" ==> r.Running?
  {
    var st1 := st.(params := st.params[p.fieldname := p.Value()]);
    match KindOf(p.fieldname)
    case TokenIdField =>
      var id := ParseInt(TextOf(p.Value()));
      if id.None? then Stopped(Rejection(InvalidTokenId), st.written)
      else if id.value in index then Stopped(Rejection(TokenIdExists), st.written)
      else Running(st1.(tokenId := id))
    case HashtagsField =>
      Running(st1.(hashtags := Some(ParseHashtags(p.Value()))))
    case ImageField =>
      if st.tokenId.None? then Stopped(Crash("Cannot read properties of undefined (reading 'toString')"), st.written)
      else if p.Field? then Stopped(Crash("The \"path\" argument must be of type string"), st.written)
      else
        var name := ImageFileName(st.tokenId.value, p.filename);
        Running(st1.(imagePath := Some(name), written := st.written + [FileWrite(FullImages, name)]))
    case PreviewField =>
      if p.Field? then Stopped(Crash("The \"streams\" argument must be specified"), st.written)
      else Running(st1.(written := st.written + [FileWrite(Previews, PreviewFileName(st.tokenId))]))
    case OtherField => Running(st1)
  }

  /** The field names the part loop reacts to. */
  datatype FieldKind = TokenIdField | HashtagsField | ImageField | PreviewField | OtherField

  function KindOf(name: string): (k: FieldKind)
    ensures k == TokenIdField <==> name == "tokenId"
    ensures k == HashtagsField <==> name == "hashtags"
    ensures k == ImageField <==> name == "image"
    ensures k == PreviewField <==> name == "preview"
  {
    assert |"tokenId"| == |"preview"| == 7 && "tokenId"[0] != "preview"[0];
    if name == "tokenId" then TokenIdField
    else if name == "hashtags" then HashtagsField
    else if name == "image" then ImageField
    else if name == "preview" then PreviewField
    else OtherField
  }

  /** The part loop over `parts`, which ends at the first part that stops it. */
  function ProcessParts(parts: seq<Part>, index: map<int, Token>): Run {
    if parts == [] then Running(Initial)
    else
      match ProcessParts(parts[..|parts| - 1], index)
      case Stopped(e, w) => Stopped(e, w)
      case Running(st) => Step(st, parts[|parts| - 1], index)
  }

  /** The `for await` loop of the handler. */
  method ReadParts(parts: seq<Part>, index: map<int, Token>) returns (run: Run)
    ensures run == ProcessParts(parts, index)
  {
    var st := Initial;
    for i := 0 to |parts|
      invariant ProcessParts(parts[..i], index) == Running(st)
    {
      assert parts[..i + 1][..i] == parts[..i];
      var r := Step(st, parts[i], index);
      if r.Stopped? {
        StoppedIsFinal(parts, index, i + 1);
        return r;
      }
      st := r.st;
    }
    assert parts[..|parts|] == parts;
    run := Running(st);
  }

  /** Once a part has stopped the request, the later parts change nothing. */
  lemma {:induction false} StoppedIsFinal(parts: seq<Part>, index: map<int, Token>, i: nat)
    requires i <= |parts| && ProcessParts(parts[..i], index).Stopped?
    ensures ProcessParts(parts, index) == ProcessParts(parts[..i], index)
    decreases |parts|
  {
    if i < |parts| {
      var prefix := parts[..|parts| - 1];
      assert prefix[..i] == parts[..i];
      StoppedIsFinal(prefix, index, i);
    } else {
      assert parts[..i] == parts;
    }
  }

  /**
   * A `tokenId` part that does not parse, or names a token already in the
   * index, stops the request with a 422 reply, whatever parts follow.
   */
  lemma TokenIdRejected(parts: seq<Part>, index: map<int, Token>, i: nat)
    requires i < |parts| && parts[i].fieldname == "tokenId"
    requires ProcessParts(parts[..i], index).Running?
    requires ParseInt(TextOf(parts[i].Value())).None? || ParseInt(TextOf(parts[i].Value())).value in index
    ensures ProcessParts(parts, index).Stopped?
    ensures ErrorReply(ProcessParts(parts, index).error).status == 422
  {
    assert parts[..i + 1][..i] == parts[..i];
    StoppedIsFinal(parts, index, i + 1);
    RejectionReachesClient(ProcessParts(parts, index).error.message);
  }

  /** `name` cannot be read as a token id, or names one that is not in the index. */
  predicate FreshName(name: string, index: map<int, Token>) {
    ParseInt(name).None? || ParseInt(name).value !in index
  }

  /**
   * What holds of the locals while reading goes on: the token id and every
   * file name written name no token of the index, a full image is named after
   * a token id, and the tags are normalised.
   */
  ghost predicate Consistent(st: PartsState, index: map<int, Token>) {
    && (st.tokenId.Some? ==> st.tokenId.value !in index)
    && (st.imagePath.Some? ==> ParseInt(st.imagePath.value).Some? && FreshName(st.imagePath.value, index))
    && (forall w :: w in st.written ==> FreshName(w.name, index))
    && (forall w :: w in st.written && w.dir == FullImages ==> ParseInt(w.name).Some?)
    && (st.hashtags.Some? ==> forall i :: 0 <= i < |st.hashtags.value| ==> IsTag(st.hashtags.value[i]))
  }

  lemma StepConsistent(st: PartsState, p: Part, index: map<int, Token>)
    requires Consistent(st, index)
    ensures Step(st, p, index).Running? ==> Consistent(Step(st, p, index).st, index)
  {
    if p.fieldname == "image" {
      ImageStepConsistent(st, p, index);
    } else if p.fieldname == "preview" {
      PreviewStepConsistent(st, p, index);
    }
  }

  lemma ImageStepConsistent(st: PartsState, p: Part, index: map<int, Token>)
    requires Consistent(st, index) && p.fieldname == "image"
    ensures Step(st, p, index).Running? ==> Consistent(Step(st, p, index).st, index)
  {
    if st.tokenId.Some? && p.File? {
      var name := ImageFileName(st.tokenId.value, p.filename);
      var next := st.(params := st.params[p.fieldname := p.Value()], imagePath := Some(name),
                      written := st.written + [FileWrite(FullImages, name)]);
      assert Step(st, p, index) == Running(next);
      WriteConsistent(st, next, FileWrite(FullImages, name), index);
    }
  }

  lemma PreviewStepConsistent(st: PartsState, p: Part, index: map<int, Token>)
    requires Consistent(st, index) && p.fieldname == "preview"
    ensures Step(st, p, index).Running? ==> Consistent(Step(st, p, index).st, index)
  {
    if p.File? {
      var name := PreviewFileName(st.tokenId);
      var next := st.(params := st.params[p.fieldname := p.Value()], written := st.written + [FileWrite(Previews, name)]);
      assert Step(st, p, index) == Running(next);
      WriteConsistent(st, next, FileWrite(Previews, name), index);
    }
  }

  /** Writing a file under a fresh name keeps the locals `Consistent`. */
  lemma WriteConsistent(st: PartsState, next: PartsState, w: FileWrite, index: map<int, Token>)
    requires Consistent(st, index)
    requires next.tokenId == st.tokenId && next.hashtags == st.hashtags && next.written == st.written + [w]
    requires next.imagePath == st.imagePath || next.imagePath == Some(w.name)
    requires FreshName(w.name, index) && (w.dir == FullImages || next.imagePath == Some(w.name) ==> ParseInt(w.name).Some?)
    ensures Consistent(next, index)
  {
  }

  /**
   * Throughout the loop the locals stay `Consistent`, and a stopped request
   * has written only fresh names.
   */
  lemma {:induction false} ProcessPartsConsistent(parts: seq<Part>, index: map<int, Token>)
    ensures ProcessParts(parts, index).Running? ==> Consistent(ProcessParts(parts, index).st, index)
    ensures ProcessParts(parts, index).Stopped? ==>
      forall w :: w in ProcessParts(parts, index).written ==> FreshName(w.name, index)
  {
    if parts != [] {
      var prefix := parts[..|parts| - 1];
      ProcessPartsConsistent(prefix, index);
      if ProcessParts(prefix, index).Running? {
        StepConsistent(ProcessParts(prefix, index).st, parts[|parts| - 1], index);
      }
    }
  }

  /** The files a request writes, whether or not it is accepted. */
  function Written(run: Run): seq<FileWrite> {
    if run.Running? then run.st.written else run.written
  }

  /**
   * A creation request never writes a file whose name is derived from the
   * id of a token already in the index: every name it writes differs from
   * that id's preview name and from any full-image name built from that id.
   * A stored record whose image is named after another id is not covered
   * (`SecondTokenIdRenamesNothing`).
   */
  lemma WritesSpareExistingTokens(parts: seq<Part>, index: map<int, Token>, id: int, uploadedName: string)
    requires id in index
    ensures forall w :: w in Written(ProcessParts(parts, index)) ==>
      w.name != PreviewFileName(Some(id)) && w.name != ImageFileName(id, uploadedName)
  {
    ProcessPartsConsistent(parts, index);
    assert ParseInt(PreviewFileName(Some(id))) == Some(id);
    assert ParseInt(ImageFileName(id, uploadedName)) == Some(id);
  }

  /**
   * The locals after reading every part hold, under each field name, the
   * value of the last part with that name.
   */
  lemma {:induction false} ParamsHoldLastPart(parts: seq<Part>, index: map<int, Token>, k: nat)
    requires ProcessParts(parts, index).Running?
    requires k < |parts| && forall j :: k < j < |parts| ==> parts[j].fieldname != parts[k].fieldname
    ensures parts[k].fieldname in ProcessParts(parts, index).st.params
    ensures ProcessParts(parts, index).st.params[parts[k].fieldname] == parts[k].Value()
  {
    var prefix := parts[..|parts| - 1];
    if k < |parts| - 1 {
      assert prefix[k] == parts[k];
      ParamsHoldLastPart(prefix, index, k);
    }
  }

  /**
   * The tags after reading every part are the normalised value of the last
   * `hashtags` part.
   */
  lemma {:induction false} HashtagsHoldLastPart(parts: seq<Part>, index: map<int, Token>, k: nat)
    requires ProcessParts(parts, index).Running?
    requires k < |parts| && parts[k].fieldname == "hashtags"
    requires forall j :: k < j < |parts| ==> parts[j].fieldname != "hashtags"
    ensures ProcessParts(parts, index).st.hashtags == Some(ParseHashtags(parts[k].Value()))
  {
    var prefix := parts[..|parts| - 1];
    if k < |parts| - 1 {
      assert prefix[k] == parts[k];
      HashtagsHoldLastPart(prefix, index, k);
    }
  }

  /** Reading parts none of which is a `tokenId` part leaves the token id unset. */
  lemma {:induction false} NoTokenIdPart(parts: seq<Part>, index: map<int, Token>)
    requires forall j :: 0 <= j < |parts| ==> parts[j].fieldname != "tokenId"
    requires ProcessParts(parts, index).Running?
    ensures ProcessParts(parts, index).st.tokenId.None?
  {
    if parts != [] {
      NoTokenIdPart(parts[..|parts| - 1], index);
    }
  }

  /** Reading parts none of which is a `hashtags` part leaves the tags unset. */
  lemma {:induction false} NoHashtagsPart(parts: seq<Part>, index: map<int, Token>)
    requires forall j :: 0 <= j < |parts| ==> parts[j].fieldname != "hashtags"
    requires ProcessParts(parts, index).Running?
    ensures ProcessParts(parts, index).st.hashtags.None?
  {
    if parts != [] {
      NoHashtagsPart(parts[..|parts| - 1], index);
    }
  }

  /** `params.<key>`: `undefined` when no part had that name. */
  function Param(params: map<string, Option<string>>, key: string): Option<string> {
    if key in params then params[key] else None
  }

  /**
   * The record a request that read all its parts creates, stamped with
   * `now`. A request that never named a token id is rejected like one whose
   * id does not parse, and a request without tags gets no tags.
   */
  function Assemble(st: PartsState, now: int): (r: Result<Token, HttpError>)
    ensures r.Err? <==> st.tokenId.None?
    ensures r.Err? ==> r.error == Rejection(InvalidTokenId)
    ensures r.Ok? ==> r.value.tokenId == st.tokenId.value && r.value.dateCreated == now
    ensures r.Ok? ==> r.value.hashtags == st.hashtags.GetOr([]) && r.value.image == st.imagePath
  {
    if st.tokenId.None? then Err(Rejection(InvalidTokenId))
    else
      Ok(Token(
        st.tokenId.value,
        Param(st.params, "name"),
        Param(st.params, "artist"),
        st.hashtags.GetOr([]),
        Param(st.params, "description"),
        Param(st.params, "owner"),
        Param(st.params, "txHash"),
        st.imagePath,
        now))
  }

  /** The outcome of a creation request against the index `index` at instant `now`. */
  function CreateOutcome(parts: seq<Part>, index: map<int, Token>, now: int): Result<Token, HttpError> {
    match ProcessParts(parts, index)
    case Stopped(e, _) => Err(e)
    case Running(st) => Assemble(st, now)
  }

  /**
   * A created record names a token not yet in the index, carries normalised
   * tags, and its full image (if any) is a file named after a fresh token id.
   */
  lemma CreatedTokenIsFresh(parts: seq<Part>, index: map<int, Token>, now: int)
    requires CreateOutcome(parts, index, now).Ok?
    ensures CreateOutcome(parts, index, now).value.tokenId !in index
    ensures forall i :: 0 <= i < |CreateOutcome(parts, index, now).value.hashtags| ==>
      IsTag(CreateOutcome(parts, index, now).value.hashtags[i])
    ensures CreateOutcome(parts, index, now).value.image.Some? ==>
      FreshName(CreateOutcome(parts, index, now).value.image.value, index)
  {
    ProcessPartsConsistent(parts, index);
  }

  /** The text fields and the tags of the created record come from the last parts with their names. */
  lemma CreatedFieldsFromParts(parts: seq<Part>, index: map<int, Token>, now: int, k: nat)
    requires CreateOutcome(parts, index, now).Ok?
    requires k < |parts| && forall j :: k < j < |parts| ==> parts[j].fieldname != parts[k].fieldname
    ensures parts[k].fieldname == "name" ==> CreateOutcome(parts, index, now).value.name == parts[k].Value()
    ensures parts[k].fieldname == "artist" ==> CreateOutcome(parts, index, now).value.artist == parts[k].Value()
    ensures parts[k].fieldname == "description" ==>
      CreateOutcome(parts, index, now).value.description == parts[k].Value()
    ensures parts[k].fieldname == "owner" ==> CreateOutcome(parts, index, now).value.owner == parts[k].Value()
    ensures parts[k].fieldname == "txHash" ==> CreateOutcome(parts, index, now).value.txHash == parts[k].Value()
    ensures parts[k].fieldname == "hashtags" ==>
      CreateOutcome(parts, index, now).value.hashtags == ParseHashtags(parts[k].Value())
  {
    ParamsHoldLastPart(parts, index, k);
    if parts[k].fieldname == "hashtags" {
      HashtagsHoldLastPart(parts, index, k);
    }
  }

  /** A `tokenId` part naming a fresh id `a` sets the token id to `a` and nothing else. */
  lemma FreshTokenIdStep(st: PartsState, a: int, index: map<int, Token>)
    requires a !in index
    ensures Step(st, Field("tokenId", IntToString(a)), index).Running?
    ensures var next := Step(st, Field("tokenId", IntToString(a)), index).st;
      next.tokenId == Some(a) && next.imagePath == st.imagePath && next.written == st.written
  {
    ParseIntOfIntToString(a, []);
    assert IntToString(a) + [] == IntToString(a);
  }

  /** An `image` file part after token id `a` writes and records `ImageFileName(a, f)`. */
  lemma ImageFileStep(st: PartsState, f: string, index: map<int, Token>)
    requires st.tokenId.Some?
    ensures Step(st, File("image", f), index).Running?
    ensures var next := Step(st, File("image", f), index).st;
      && next.tokenId == st.tokenId
      && next.imagePath == Some(ImageFileName(st.tokenId.value, f))
      && FileWrite(FullImages, ImageFileName(st.tokenId.value, f)) in next.written
  {
  }

  /** The parts of a request that names token `a` and uploads `f`. */
  function ImageRequestParts(a: int, f: string): seq<Part> {
    [Field("tokenId", IntToString(a))] + [File("image", f)]
  }

  /** The parts of a request that names token `a`, uploads `f` and then names token `b`. */
  function SecondTokenIdParts(a: int, f: string, b: int): seq<Part> {
    ImageRequestParts(a, f) + [Field("tokenId", IntToString(b))]
  }

  /**
   * A request that sends a second `tokenId` part after its `image` part:
   * the record takes the later id, but its full image keeps the name built
   * from the earlier one.
   */
  lemma SecondTokenIdRenamesNothing(a: int, f: string, b: int, index: map<int, Token>, now: int)
    requires a !in index && b !in index
    ensures CreateOutcome(SecondTokenIdParts(a, f, b), index, now).Ok?
    ensures CreateOutcome(SecondTokenIdParts(a, f, b), index, now).value.tokenId == b
    ensures CreateOutcome(SecondTokenIdParts(a, f, b), index, now).value.image == Some(ImageFileName(a, f))
  {
    EarlierIdWritesImage(a, f, index);
    var st := ProcessParts(ImageRequestParts(a, f), index).st;
    ProcessPartsSnoc(ImageRequestParts(a, f), Field("tokenId", IntToString(b)), index);
    FreshTokenIdStep(st, b, index);
    var next := Step(st, Field("tokenId", IntToString(b)), index).st;
    assert ProcessParts(SecondTokenIdParts(a, f, b), index) == Running(next);
  }

  /** Reading one more part is one more `Step`, unless reading has stopped. */
  lemma ProcessPartsSnoc(parts: seq<Part>, p: Part, index: map<int, Token>)
    ensures ProcessParts(parts + [p], index) ==
      if ProcessParts(parts, index).Stopped? then ProcessParts(parts, index)
      else Step(ProcessParts(parts, index).st, p, index)
  {
    assert (parts + [p])[..|parts|] == parts;
  }

  /**
   * A request for a fresh id `a` that uploads `f` writes `ImageFileName(a, f)`
   * and records it: with the record of `SecondTokenIdRenamesNothing` stored
   * under `b`, a later request for `a` passes the id check and writes over
   * that record's full image.
   */
  lemma EarlierIdWritesImage(a: int, f: string, index: map<int, Token>)
    requires a !in index
    ensures var run := ProcessParts(ImageRequestParts(a, f), index);
      && run.Running? && run.st.imagePath == Some(ImageFileName(a, f))
      && FileWrite(FullImages, ImageFileName(a, f)) in run.st.written
  {
    var p0 := Field("tokenId", IntToString(a));
    assert [p0][..0] == [];
    FreshTokenIdStep(Initial, a, index);
    var st := Step(Initial, p0, index).st;
    assert ProcessParts([p0], index) == Running(st);
    ProcessPartsSnoc([p0], File("image", f), index);
    ImageFileStep(st, f, index);
  }

  /** A request without a `tokenId` part that reads all its parts is rejected with 422. */
  lemma MissingTokenIdRejected(parts: seq<Part>, index: map<int, Token>, now: int)
    requires forall j :: 0 <= j < |parts| ==> parts[j].fieldname != "tokenId"
    requires ProcessParts(parts, index).Running?
    ensures CreateOutcome(parts, index, now) == Err(Rejection(InvalidTokenId))
    ensures ErrorReply(CreateOutcome(parts, index, now).error).status == 422
  {
    NoTokenIdPart(parts, index);
  }

  /** A request without a `hashtags` part creates a record with no tags. */
  lemma MissingHashtagsDefaultToEmpty(parts: seq<Part>, index: map<int, Token>, now: int)
    requires forall j :: 0 <= j < |parts| ==> parts[j].fieldname != "hashtags"
    requires CreateOutcome(parts, index, now).Ok?
    ensures CreateOutcome(parts, index, now).value.hashtags == []
  {
    NoHashtagsPart(parts, index);
  }

  /**
   * The record exactly as the handler builds it: `tokenId` and `hashtags`
   * stay `undefined` when no part set them.
   */
  datatype RawToken = RawToken(
    tokenId: Option<int>,
    name: Option<string>,
    artist: Option<string>,
    hashtags: Option<seq<string>>,
    description: Option<string>,
    owner: Option<string>,
    txHash: Option<string>,
    image: Option<string>,
    dateCreated: int)

  /** The record the handler passes to `addTokenData`, with no check of its own. */
  function AssembleAsWritten(st: PartsState, now: int): (r: RawToken)
    ensures r.tokenId == st.tokenId && r.hashtags == st.hashtags && r.image == st.imagePath
  {
    RawToken(
      st.tokenId,
      Param(st.params, "name"),
      Param(st.params, "artist"),
      st.hashtags,
      Param(st.params, "description"),
      Param(st.params, "owner"),
      Param(st.params, "txHash"),
      st.imagePath,
      now)
  }

  /**
   * The tag walk of `calculateHashtags` over such records: iterating the
   * `hashtags` of a record that has none throws.
   */
  function TagsAsWritten(recs: seq<RawToken>): (r: Result<seq<string>, HttpError>)
    ensures r.Err? <==> exists k :: 0 <= k < |recs| && recs[k].hashtags.None?
  {
    if recs == [] then Ok([])
    else if recs[0].hashtags.None? then Err(Crash("d.hashtags is not iterable"))
    else
      match TagsAsWritten(recs[1..])
      case Err(e) =>
        var k :| 0 <= k < |recs[1..]| && recs[1..][k].hashtags.None?;
        assert recs[k + 1].hashtags.None?;
        Err(e)
      case Ok(rest) =>
        assert forall k :: 1 <= k < |recs| ==> recs[k] == recs[1..][k - 1];
        Ok(recs[0].hashtags.value + rest)
  }

  /**
   * A request with a valid token id and no `hashtags` part is accepted as
   * written, and the record it adds makes every later ranking throw: the
   * first because the record is already at the front of `all`, and all later
   * ones because it stays there.
   */
  lemma MissingHashtagsBreaksRankingAsWritten(parts: seq<Part>, index: map<int, Token>, now: int, newer: seq<RawToken>, older: seq<RawToken>)
    requires forall j :: 0 <= j < |parts| ==> parts[j].fieldname != "hashtags"
    requires ProcessParts(parts, index).Running? && ProcessParts(parts, index).st.tokenId.Some?
    ensures TagsAsWritten(newer + [AssembleAsWritten(ProcessParts(parts, index).st, now)] + older).Err?
  {
    NoHashtagsPart(parts, index);
    var recs := newer + [AssembleAsWritten(ProcessParts(parts, index).st, now)] + older;
    assert recs[|newer|].hashtags.None?;
  }

  /** A request without a `tokenId` part is accepted as written, with no token id. */
  lemma MissingTokenIdAcceptedAsWritten(parts: seq<Part>, index: map<int, Token>, now: int)
    requires forall j :: 0 <= j < |parts| ==> parts[j].fieldname != "tokenId"
    requires ProcessParts(parts, index).Running?
    ensures AssembleAsWritten(ProcessParts(parts, index).st, now).tokenId.None?
  {
    NoTokenIdPart(parts, index);
  }

  /**
   * Two incomplete requests on an empty store. One with only a `name`
   * part: as written it reaches `addTokenData` with no id; corrected, it is
   * rejected. One with only a `tokenId` part: as written its record breaks
   * the tag walk; corrected, it is created with no tags.
   */
  lemma IncompleteRequestExamples(now: int)
    ensures var parts := [Field("name", "Sunset")];
      && ProcessParts(parts, map[]).Running?
      && AssembleAsWritten(ProcessParts(parts, map[]).st, now).tokenId == None
      && CreateOutcome(parts, map[], now) == Err(Rejection(InvalidTokenId))
    ensures var parts := [Field("tokenId", "7")];
      && ProcessParts(parts, map[]).Running?
      && TagsAsWritten([AssembleAsWritten(ProcessParts(parts, map[]).st, now)]).Err?
      && CreateOutcome(parts, map[], now).Ok?
      && CreateOutcome(parts, map[], now).value.hashtags == []
  {
    var p1 := [Field("name", "Sunset")];
    assert p1[..0] == [];
    var p2 := [Field("tokenId", "7")];
    assert p2[..0] == [];
    assert ParseInt("7") == Some(7) by {
      ParseIntOfIntToString(7, []);
      assert IntToString(7) + [] == "7";
    }
  }
}
