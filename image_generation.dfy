/** The image-prompt utilities of the dashboard: the safety check, the token
    estimate, the quality-keyword enhancement and the decisions of
    `generateImage` around its Clipdrop request (the request itself is the
    parameter `reply`). */
module ImageGeneration {
  import opened Wrappers
  import opened Sequences
  import opened Text

  /** `{ valid: true }` or `{ valid: false, reason }`. */
  datatype Validation = Valid | Invalid(reason: string)

  const BannedWords: seq<string> :=
    ["nude", "naked", "porn", "sex", "violence", "gore", "racist", "hate", "terrorist", "illegal", "drug"]
  const InappropriateReason := "Prompt contains inappropriate content"
  const TooLongReason := "Prompt too long (max 1000 characters)"
  const TooShortReason := "Prompt too short (min 3 characters)"
  /** Clipdrop's prompt limit. */
  const MaxPromptLength: nat := 1000
  const MinPromptLength: nat := 3

  /** `validateImagePrompt`: banned words first, then too long, then too
      short. */
  function ValidatePrompt(prompt: string): (v: Validation)
    ensures v.Valid? <==>
              && (forall w :: w in BannedWords ==> !Contains(ToLower(prompt), w))
              && MinPromptLength <= |prompt| <= MaxPromptLength
    ensures (exists w :: w in BannedWords && Contains(ToLower(prompt), w)) ==>
              v == Invalid(InappropriateReason)
    ensures !ContainsAny(ToLower(prompt), BannedWords) && |prompt| > MaxPromptLength ==>
              v == Invalid(TooLongReason)
    ensures !ContainsAny(ToLower(prompt), BannedWords) && |prompt| < MinPromptLength ==>
              v == Invalid(TooShortReason)
  {
    if ContainsAny(ToLower(prompt), BannedWords) then Invalid(InappropriateReason)
    else if |prompt| > MaxPromptLength then Invalid(TooLongReason)
    else if |prompt| < MinPromptLength then Invalid(TooShortReason)
    else Valid
  }

  /** `Math.ceil(prompt.length / 4)`. */
  function EstimateTokenUsage(prompt: string): (tokens: nat)
    ensures 4 * tokens - 4 < |prompt| <= 4 * tokens
    ensures tokens == 0 <==> prompt == ""
  {
    (|prompt| + 3) / 4
  }

  /** A longer prompt is never estimated at fewer tokens. */
  lemma EstimateMonotone(p: string, q: string)
    requires |p| <= |q|
    ensures EstimateTokenUsage(p) <= EstimateTokenUsage(q)
  {
  }

  const HighQuality := "high quality"
  const QualityKeywords: seq<string> := [HighQuality, "detailed", "sharp focus"]
  const QualitySuffix := ", " + HighQuality + ", detailed"

  predicate HasQuality(prompt: string) {
    ContainsAny(ToLower(prompt), QualityKeywords)
  }

  /** `enhancePrompt`: the quality suffix when no quality keyword is there,
      then a cut at 1000 characters. */
  function EnhancePrompt(prompt: string): (enhanced: string)
    ensures |enhanced| <= MaxPromptLength
    ensures HasQuality(prompt) && |prompt| <= MaxPromptLength ==> enhanced == prompt
    ensures HasQuality(prompt) ==> StartsWith(prompt, enhanced)
    ensures !HasQuality(prompt) ==>
              StartsWith(prompt + QualitySuffix, enhanced) &&
              |enhanced| == Min(|prompt| + |QualitySuffix|, MaxPromptLength)
  {
    var withQuality := if HasQuality(prompt) then prompt else prompt + QualitySuffix;
    Take(withQuality, MaxPromptLength)
  }

  /** The suffix carries a quality keyword of its own. */
  lemma SuffixAddsQuality(prompt: string)
    ensures HasQuality(prompt + QualitySuffix)
  {
    var head, tail := prompt + ", ", ", detailed";
    assert prompt + QualitySuffix == head + HighQuality + tail;
    ToLowerConcat(head + HighQuality, tail);
    ToLowerConcat(head, HighQuality);
    ToLowerKeepsLower(HighQuality);
    ContainsSelf(HighQuality);
    ContainsInside(ToLower(head), HighQuality, ToLower(tail), HighQuality);
    assert HighQuality in QualityKeywords;
  }

  /** Enhancing an enhanced prompt changes nothing. */
  lemma EnhanceIdempotent(prompt: string)
    ensures EnhancePrompt(EnhancePrompt(prompt)) == EnhancePrompt(prompt)
  {
    var once := EnhancePrompt(prompt);
    if |once| < MaxPromptLength && !HasQuality(prompt) {
      assert once == prompt + QualitySuffix;
      SuffixAddsQuality(prompt);
    }
  }

  /** The part of the dashboard's settings `generateImage` reads. */
  datatype ImageSettings = ImageSettings(apiKey: Option<string>, negativePrompt: Option<string>)

  /** The form fields of the Clipdrop request. */
  function RequestFields(prompt: string, settings: ImageSettings): (fields: seq<(string, string)>)
    ensures |fields| >= 1 && fields[0] == ("prompt", prompt)
    ensures |fields| == 2 <==> Present(settings.negativePrompt)
    ensures |fields| == 2 ==> fields[1] == ("negative_prompt", settings.negativePrompt.value)
  {
    [("prompt", prompt)] +
    (if Present(settings.negativePrompt) then [("negative_prompt", settings.negativePrompt.value)] else [])
  }

  /** How the Clipdrop request ended: an image, a non-OK status with its
      body text (`None` when reading it failed), or a thrown error. */
  datatype ClipdropReply =
    | ImageData(dataUrl: string)
    | HttpError(status: nat, body: Option<string>)
    | Thrown(message: string)

  datatype Generation =
    | Generated(image: string, model: string, size: string)
    | GenerationFailed(error: string)

  const MissingKeyError := "Clipdrop API key not configured"
  const ClipdropModel := "clipdrop-text-to-image"
  const ClipdropSize := "1024x1024"

  const InvalidPromptError := "Invalid prompt. Please try a different description."
  const InvalidKeyError := "API key is invalid."
  const NoCreditsError := "Out of credits. Please contact administrator."
  const PolicyError := "Prompt violates content policy."
  const RateLimitError := "Rate limit exceeded. Please wait."
  const GenericPrefix := "API error: "

  /** The message thrown for a non-OK status. */
  function StatusError(status: nat, errorText: string): string {
    if status == 400 then InvalidPromptError
    else if status == 401 then InvalidKeyError
    else if status == 402 then NoCreditsError
    else if status == 403 then PolicyError
    else if status == 429 then RateLimitError
    else GenericPrefix + NatToString(status) + " - " + errorText
  }

  /** The five known statuses have fixed messages that do not depend on the
      response text; every other status is reported with its number and the
      response text. */
  lemma StatusErrorCases(status: nat, errorText: string, otherText: string)
    ensures status in {400, 401, 402, 403, 429} ==>
              StatusError(status, errorText) == StatusError(status, otherText)
    ensures status !in {400, 401, 402, 403, 429} ==>
              && StartsWith(StatusError(status, errorText), GenericPrefix + NatToString(status))
              && EndsWith(StatusError(status, errorText), " - " + errorText)
              && (StatusError(status, errorText) == StatusError(status, otherText) <==> errorText == otherText)
  {
    if status !in {400, 401, 402, 403, 429} {
      var head := GenericPrefix + NatToString(status);
      assert StatusError(status, errorText) == head + " - " + errorText;
      assert head + " - " + errorText == head + (" - " + errorText);
      SuffixAfterPrefix(head, " - " + errorText);
      SuffixOfConcat(head, " - " + errorText);
      if errorText != otherText {
        assert (head + " - " + errorText)[|head| + 3..] == errorText;
        assert (head + " - " + otherText)[|head| + 3..] == otherText;
      }
    }
  }

  /** `generateImage` once `reply` stands for the request's outcome. */
  function GenerateImage(prompt: string, settings: ImageSettings, reply: ClipdropReply): (g: Generation)
    ensures !Present(settings.apiKey) ==> g == GenerationFailed(MissingKeyError)
    ensures g.Generated? <==> Present(settings.apiKey) && reply.ImageData?
    ensures g.Generated? ==> g == Generated(reply.dataUrl, ClipdropModel, ClipdropSize)
    ensures Present(settings.apiKey) && reply.HttpError? ==>
              g == GenerationFailed(StatusError(reply.status,
                                                if reply.body.Some? then reply.body.value else "Unknown error"))
  {
    if !Present(settings.apiKey) then GenerationFailed(MissingKeyError)
    else match reply
      case ImageData(dataUrl) => Generated(dataUrl, ClipdropModel, ClipdropSize)
      case HttpError(status, body) =>
        GenerationFailed(StatusError(status, if body.Some? then body.value else "Unknown error"))
      case Thrown(message) => GenerationFailed(message)
  }

  /** Without a key nothing that the request would return matters. */
  lemma MissingKeyIgnoresReply(prompt: string, settings: ImageSettings, a: ClipdropReply, b: ClipdropReply)
    requires !Present(settings.apiKey)
    ensures GenerateImage(prompt, settings, a) == GenerateImage(prompt, settings, b)
  {
  }
}
