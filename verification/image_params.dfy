/** What `generateImage` (server/index.js) asks the image API for: the
    prompt built from the instance's template and the post's text, the
    quality and size it settles on, and whether it edits reference images
    or generates from scratch; then the media URL it makes of the reply.
    The API call itself is not made here. */
module ImageParams {
  import opened Strings
  import Bot

  const DefaultModel: Text := "dall-e-3"
  const DefaultPrompt: Text := "Create an image for a Telegram post based on the following text: {postText}. The image should have a stylish, minimalistic design with modern, fashionable gradients."
  const DefaultQuality: Text := "medium"
  const DefaultSize: Text := "1024x1024"
  const ImageQualities: seq<Text> := ["low", "medium", "high"]
  const ImageSizes: seq<Text> := ["1024x1024", "1024x1536", "1536x1024"]
  const DallE2Sizes: seq<Text> := ["256x256", "512x512", "1024x1024"]
  const Placeholder: Text := "{postText}"

  /** An instance's image settings; an empty text is a missing (falsy)
      setting. */
  datatype ImageSettings = ImageSettings(
    imageModel: Text, imagePrompt: Text, imageQuality: Text, imageSize: Text,
    referenceImages: seq<Text>)

  /** `a || b` on texts. */
  function Or(a: Text, b: Text): Text {
    if |a| > 0 then a else b
  }

  // ---------------------------------------------------------------------
  // The prompt
  // ---------------------------------------------------------------------

  /** `basePrompt.split('{postText}').join(text)` as written: an undefined
      `text` (a post that has only media) makes `join` use its default
      separator, a comma. */
  function PromptAsWritten(base: Text, text: Option<Text>): (r: Text)
    ensures r == ReplaceAll(base, Placeholder, if text.Some? then text.value else ",")
  {
    ReplaceAllIsSplitJoin(base, Placeholder, if text.Some? then text.value else ",");
    Join(Split(base, Placeholder), if text.Some? then text.value else ",")
  }

  /** The prompt with the post's text, or nothing when it has none, in
      place of every `{postText}`. */
  function Prompt(base: Text, text: Option<Text>): (r: Text)
    ensures r == ReplaceAll(base, Placeholder, if text.Some? then text.value else "")
  {
    ReplaceAllIsSplitJoin(base, Placeholder, if text.Some? then text.value else "");
    Join(Split(base, Placeholder), if text.Some? then text.value else "")
  }

  /** A post without text gets a comma where its text belongs. */
  lemma PromptWithoutTextHasComma()
    ensures PromptAsWritten(Placeholder, None) == ","
    ensures Prompt(Placeholder, None) == ""
  {
    assert IsPrefix(Placeholder, Placeholder);
    assert Placeholder[|Placeholder|..] == [];
    assert Split([], Placeholder) == [[]];
    var pieces := Split(Placeholder, Placeholder);
    assert pieces == [[]] + [[]];
    assert pieces[1..] == [[]];
    assert Join(pieces, ",") == [] + "," + [];
    assert Join(pieces, "") == [] + "" + [];
  }

  /** A template without `{postText}` is kept as it is. */
  lemma PromptFillsPlaceholder(base: Text, text: Option<Text>)
    ensures !Contains(base, Placeholder) ==> Prompt(base, text) == base
  {
    if !Contains(base, Placeholder) {
      ReplaceAllAbsent(base, Placeholder, if text.Some? then text.value else "");
    }
  }

  /** The two agree whenever the post has text. */
  lemma PromptAgreesWithText(base: Text, t: Text)
    ensures PromptAsWritten(base, Some(t)) == Prompt(base, Some(t))
  {
  }

  // ---------------------------------------------------------------------
  // Quality and size
  // ---------------------------------------------------------------------

  /** The instance's quality when it is one of the known qualities,
      otherwise the default. */
  function Quality(requested: Text): (q: Text)
    ensures q in ImageQualities
    ensures requested in ImageQualities ==> q == requested
    ensures requested !in ImageQualities ==> q == DefaultQuality
  {
    if requested in ImageQualities then requested else DefaultQuality
  }

  /** The size selection as written: the dall-e-2 check lets 256x256 and
      512x512 through, and the general check then replaces them. */
  function SizeAsWritten(model: Text, requested: Text): (size: Text)
    ensures size in ImageSizes
    ensures model != "dall-e-2" && requested in ImageSizes ==> size == requested
  {
    var size := Or(requested, DefaultSize);
    var size := if model == "dall-e-2" && size !in DallE2Sizes then DefaultSize else size;
    if size !in ImageSizes then DefaultSize else size
  }

  /** The sizes the code lists for a model. */
  function AllowedSizes(model: Text): seq<Text> {
    if model == "dall-e-2" then DallE2Sizes else ImageSizes
  }

  /** The size selection with each model checked against its own list. */
  function Size(model: Text, requested: Text): (size: Text)
    ensures size in AllowedSizes(model)
    ensures requested in AllowedSizes(model) ==> size == requested
    ensures requested !in AllowedSizes(model) ==> size == DefaultSize
  {
    var size := Or(requested, DefaultSize);
    if size in AllowedSizes(model) then size else DefaultSize
  }

  /** As written, dall-e-2 always gets 1024x1024, although 256x256 and
      512x512 are in its list. */
  lemma DallE2SizeIgnored(requested: Text)
    ensures SizeAsWritten("dall-e-2", requested) == DefaultSize
    ensures "512x512" in DallE2Sizes && Size("dall-e-2", "512x512") == "512x512"
  {
  }

  /** For every other model the two selections agree. */
  lemma SizeAgreesBeyondDallE2(model: Text, requested: Text)
    requires model != "dall-e-2"
    ensures SizeAsWritten(model, requested) == Size(model, requested)
  {
  }

  // ---------------------------------------------------------------------
  // The request
  // ---------------------------------------------------------------------

  /** The call `generateImage` makes: an edit of the reference images for
      the models that take them, a generation otherwise. */
  datatype ImageCall =
    | Edit(model: Text, prompt: Text, images: seq<Text>, size: Text, quality: Text)
    | Generate(model: Text, prompt: Text, size: Text, quality: Text)

  predicate EditsImages(model: Text) {
    model == "gpt-image-1" || model == "gpt-4o"
  }

  /** `generateImage(model, basePrompt, text, inst, post)`'s request; `inst`
      is the post's instance, if it has one. */
  function ImageRequest(model: Text, base: Text, text: Option<Text>, inst: Option<ImageSettings>): (c: ImageCall)
    ensures c.model == model && c.prompt == Prompt(base, text)
    ensures c.quality in ImageQualities && c.size in AllowedSizes(model)
    ensures c.Edit? <==> EditsImages(model) && inst.Some? && |inst.value.referenceImages| > 0
    ensures c.Edit? ==> c.images == inst.value.referenceImages
  {
    var refs := if inst.Some? then inst.value.referenceImages else [];
    var quality := Quality(if inst.Some? then inst.value.imageQuality else "");
    var size := Size(model, if inst.Some? then inst.value.imageSize else "");
    var prompt := Prompt(base, text);
    if EditsImages(model) && |refs| > 0 then Edit(model, prompt, refs, size, quality)
    else Generate(model, prompt, size, quality)
  }

  /** The first image of the reply: a URL and base64 data, an empty text
      standing for a missing one. */
  datatype ImageData = ImageData(url: Text, b64: Text)

  const PngDataPrefix: Text := "data:image/png;base64,"

  /** The media `generateImage` resolves to: the URL, else a PNG data URL of
      the base64 data, else nothing. */
  function ImageUrl(first: Option<ImageData>): (r: Option<Text>)
    ensures first.Some? && |first.value.url| > 0 ==> r == Some(first.value.url)
    ensures r.Some? ==> first.Some? && |r.value| > 0
    ensures r.Some? ==> r.value == first.value.url || r.value == PngDataPrefix + first.value.b64
    ensures first.Some? && (|first.value.url| > 0 || |first.value.b64| > 0) <==> r.Some?
  {
    if first.None? then None
    else if |first.value.url| > 0 then Some(first.value.url)
    else if |first.value.b64| > 0 then Some(PngDataPrefix + first.value.b64)
    else None
  }

  /** A data URL made of base64 data is one the bot's `decodeDataUrl`
      accepts, and it gives the same data back. */
  lemma GeneratedDataUrlDecodes(b64: Text)
    requires |b64| > 0 && !HasLineTerminator(b64)
    requires forall k :: 0 <= k < |b64| ==> b64[k] != ';'
    ensures ImageUrl(Some(ImageData([], b64))) == Some(PngDataPrefix + b64)
    ensures Bot.DataUrlPayload(PngDataPrefix + b64) == Some(b64)
  {
    PngPrefixParts();
    Bot.DataUrlRoundTrip("image/png", b64);
  }

  /** The PNG prefix is a data URL's head for the `image/png` type. */
  lemma PngPrefixParts()
    ensures PngDataPrefix == "data:" + "image/png" + Bot.Base64Marker
    ensures !HasLineTerminator("image/png")
  {
    var mime := "image/png";
    forall i | 0 <= i < |mime| ensures !IsLineTerminator(mime[i]) {
    }
  }
}
