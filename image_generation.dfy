/**
 * The image generation client: which API version and URL template a model uses, and the
 * validation and assembly of a request from a text prompt and optional settings. The
 * request is validated and assembled in full before anything is sent; the HTTP exchange
 * itself is outside the model, so a successful call ends with the post it would send.
 */
module ImageGeneration {
  import opened Wrappers

  const UrlGoogleAi: string := "{BaseUrlGoogleAi}/{model}:{method}"
  const UrlVertexAi: string := "{BaseUrlVertexAi}/publishers/{publisher}/{model}:{method}"

  /** The accepted aspect ratios, compared exactly. */
  const AspectRatios: seq<string> := ["1:1", "9:16", "16:9", "4:3", "3:4"]

  /** The accepted safety filter levels, in upper case. */
  const SafetyFilterLevels: seq<string> :=
    ["BLOCK_LOW_AND_ABOVE", "BLOCK_MEDIUM_AND_ABOVE", "BLOCK_ONLY_HIGH", "BLOCK_NONE"]

  datatype ApiVersion = V1 | V1Beta

  /** ArgumentNullException and ArgumentException, with the name of the offending parameter. */
  datatype ArgumentError = ArgumentNull(paramName: string) | InvalidArgument(paramName: string)

  /** The prompt language and person generation settings are enums whose members are passed through unchanged. */
  datatype ImagePromptLanguage = ImagePromptLanguage(name: string)
  datatype PersonGeneration = PersonGeneration(name: string)

  datatype ImageGenerationParameters = ImageGenerationParameters(
    SampleCount: int,
    NegativePrompt: Option<string>,
    AspectRatio: Option<string>,
    GuidanceScale: Option<int>,
    Language: Option<ImagePromptLanguage>,
    SafetyFilterLevel: Option<string>,
    PersonGeneration: Option<PersonGeneration>,
    EnhancePrompt: Option<bool>,
    AddWatermark: Option<bool>)

  datatype ImageGenerationRequest = ImageGenerationRequest(Prompt: string, Parameters: ImageGenerationParameters)

  /** What a call would post: the API version, the URL template and the request body. */
  datatype ImagePost = ImagePost(version: ApiVersion, urlTemplate: string, request: ImageGenerationRequest)

  /** A new request for prompt asking for numberOfImages samples, every other parameter unset. */
  function NewRequest(prompt: string, numberOfImages: int): ImageGenerationRequest
  {
    ImageGenerationRequest(prompt, ImageGenerationParameters(numberOfImages, None, None, None, None, None, None, None, None))
  }

  predicate IsNullOrEmpty(s: Option<string>)
  {
    s.None? || s.value == ""
  }

  /** Upper-casing of one character, on the ASCII letters. */
  function UpperChar(c: char): char
  {
    if 'a' <= c <= 'z' then (c as int - 32) as char else c
  }

  /** The invariant-culture upper-casing, on ASCII: a to z become A to Z, everything else stays. */
  function ToUpperInvariant(s: string): (r: string)
    ensures |r| == |s|
    // no lower-case ASCII letter is left
    ensures forall i :: 0 <= i < |r| ==> !('a' <= r[i] <= 'z')
    // a lower-case letter becomes the capital of the same letter
    ensures forall i :: 0 <= i < |s| && 'a' <= s[i] <= 'z' ==>
              'A' <= r[i] <= 'Z' && r[i] as int - 'A' as int == s[i] as int - 'a' as int
    // every other character stays where it was, so an input without lower-case letters comes back as it was
    ensures forall i :: 0 <= i < |s| && !('a' <= s[i] <= 'z') ==> r[i] == s[i]
    ensures (forall i :: 0 <= i < |s| ==> !('a' <= s[i] <= 'z')) ==> r == s
  {
    seq(|s|, i requires 0 <= i < |s| => UpperChar(s[i]))
  }

  /** Upper-casing twice is upper-casing once. */
  lemma ToUpperIsIdempotent(s: string)
    ensures ToUpperInvariant(ToUpperInvariant(s)) == ToUpperInvariant(s)
  {
    var u := ToUpperInvariant(s);
    assert forall i :: 0 <= i < |u| ==> ToUpperInvariant(u)[i] == u[i];
  }

  /** An aspect ratio passes when it is unset or empty, or one of the accepted ones exactly. */
  predicate AspectRatioAccepted(aspectRatio: Option<string>)
  {
    IsNullOrEmpty(aspectRatio) || aspectRatio.value in AspectRatios
  }

  /** A safety filter level passes when it is unset or empty, or one of the accepted ones once upper-cased. */
  predicate SafetyFilterLevelAccepted(level: Option<string>)
  {
    IsNullOrEmpty(level) || ToUpperInvariant(level.value) in SafetyFilterLevels
  }

  /** Levels that differ only in the case of their letters are accepted alike and stored alike. */
  lemma {:induction false} SafetyFilterLevelIgnoresCase(a: string, b: string)
    requires |a| == |b| && forall i :: 0 <= i < |a| ==> UpperChar(a[i]) == UpperChar(b[i])
    ensures ToUpperInvariant(a) == ToUpperInvariant(b)
    ensures SafetyFilterLevelAccepted(Some(a)) <==> SafetyFilterLevelAccepted(Some(b))
  {
    assert forall i :: 0 <= i < |a| ==> ToUpperInvariant(a)[i] == ToUpperInvariant(b)[i];
    if a == [] {
      assert b == [];
    } else {
      assert b != [];
    }
  }

  /** A lower-case level is accepted and its upper-case form is what is stored. */
  lemma LowerCaseLevelAccepted()
    ensures ToUpperInvariant("block_none") == "BLOCK_NONE"
    ensures SafetyFilterLevelAccepted(Some("block_none"))
  {
    assert ToUpperInvariant("block_none") == "BLOCK_NONE";
  }

  /** The aspect-ratio step: an unset or empty ratio leaves the parameters alone, a listed one is set, any other is rejected. */
  method ApplyAspectRatio(parameters: ImageGenerationParameters, aspectRatio: Option<string>)
    returns (r: Result<ImageGenerationParameters, ArgumentError>)
    ensures r.Failure? <==> !AspectRatioAccepted(aspectRatio)
    ensures r.Failure? ==> r.error == InvalidArgument("aspectRatio")
    ensures r.Success? ==>
              r.value == parameters.(AspectRatio := if IsNullOrEmpty(aspectRatio) then parameters.AspectRatio else aspectRatio)
  {
    r := Success(parameters);
    if !IsNullOrEmpty(aspectRatio) {
      if aspectRatio.value !in AspectRatios {
        return Failure(InvalidArgument("aspectRatio"));
      }
      r := Success(parameters.(AspectRatio := aspectRatio));
    }
  }

  /** The three null-coalescing assignments: each setting is filled in only where the parameters still lack one. */
  method FillUnset(parameters: ImageGenerationParameters, negativePrompt: Option<string>,
                   guidanceScale: Option<int>, language: Option<ImagePromptLanguage>)
    returns (p: ImageGenerationParameters)
    ensures p == parameters.(NegativePrompt := parameters.NegativePrompt.OrElse(negativePrompt),
                             GuidanceScale := parameters.GuidanceScale.OrElse(guidanceScale),
                             Language := parameters.Language.OrElse(language))
  {
    p := parameters;
    if p.NegativePrompt.None? {
      p := p.(NegativePrompt := negativePrompt);
    }
    if p.GuidanceScale.None? {
      p := p.(GuidanceScale := guidanceScale);
    }
    if p.Language.None? {
      p := p.(Language := language);
    }
  }

  /**
   * The safety-filter step: an unset or empty level leaves the parameters alone, a level
   * listed once upper-cased is stored upper-cased, any other is rejected.
   */
  method ApplySafetyFilterLevel(parameters: ImageGenerationParameters, safetyFilterLevel: Option<string>)
    returns (r: Result<ImageGenerationParameters, ArgumentError>)
    ensures r.Failure? <==> !SafetyFilterLevelAccepted(safetyFilterLevel)
    ensures r.Failure? ==> r.error == InvalidArgument("safetyFilterLevel")
    ensures r.Success? ==>
              r.value == parameters.(SafetyFilterLevel :=
                           if IsNullOrEmpty(safetyFilterLevel) then parameters.SafetyFilterLevel
                           else Some(ToUpperInvariant(safetyFilterLevel.value)))
  {
    r := Success(parameters);
    if !IsNullOrEmpty(safetyFilterLevel) {
      var level := ToUpperInvariant(safetyFilterLevel.value);
      if level !in SafetyFilterLevels {
        return Failure(InvalidArgument("safetyFilterLevel"));
      }
      r := Success(parameters.(SafetyFilterLevel := Some(level)));
    }
  }

  /** The last three assignments: person generation only when given, enhancement and watermark always. */
  method ApplyFlags(parameters: ImageGenerationParameters, personGeneration: Option<PersonGeneration>,
                    enhancePrompt: Option<bool>, addWatermark: Option<bool>)
    returns (p: ImageGenerationParameters)
    ensures p == parameters.(PersonGeneration := personGeneration.OrElse(parameters.PersonGeneration),
                             EnhancePrompt := enhancePrompt, AddWatermark := addWatermark)
  {
    p := parameters;
    if personGeneration.Some? {
      p := p.(PersonGeneration := personGeneration);
    }
    p := p.(EnhancePrompt := enhancePrompt);
    p := p.(AddWatermark := addWatermark);
  }

  /**
   * The parameter assembly of the prompt overload, applied to the parameters of a new
   * request. The aspect ratio is validated and set when given; the negative prompt, guidance
   * scale and language are only filled in where still unset; the safety filter level is
   * validated and stored upper-cased when given; the person generation is set only when
   * given; enhancement and watermark are always overwritten, also with null.
   */
  method AssembleParameters(parameters: ImageGenerationParameters,
                            negativePrompt: Option<string>, aspectRatio: Option<string>,
                            guidanceScale: Option<int>, language: Option<ImagePromptLanguage>,
                            safetyFilterLevel: Option<string>, personGeneration: Option<PersonGeneration>,
                            enhancePrompt: Option<bool>, addWatermark: Option<bool>)
    returns (r: Result<ImageGenerationParameters, ArgumentError>)
    ensures r.Success? <==> AspectRatioAccepted(aspectRatio) && SafetyFilterLevelAccepted(safetyFilterLevel)
    // the aspect ratio is checked first
    ensures !AspectRatioAccepted(aspectRatio) ==> r == Failure(InvalidArgument("aspectRatio"))
    ensures AspectRatioAccepted(aspectRatio) && !SafetyFilterLevelAccepted(safetyFilterLevel) ==>
              r == Failure(InvalidArgument("safetyFilterLevel"))
    ensures r.Success? ==>
              var p := r.value;
              && p.SampleCount == parameters.SampleCount
              && p.AspectRatio == (if IsNullOrEmpty(aspectRatio) then parameters.AspectRatio else aspectRatio)
              && p.NegativePrompt == (if parameters.NegativePrompt.Some? then parameters.NegativePrompt else negativePrompt)
              && p.GuidanceScale == (if parameters.GuidanceScale.Some? then parameters.GuidanceScale else guidanceScale)
              && p.Language == (if parameters.Language.Some? then parameters.Language else language)
              && p.SafetyFilterLevel ==
                   (if IsNullOrEmpty(safetyFilterLevel) then parameters.SafetyFilterLevel
                    else Some(ToUpperInvariant(safetyFilterLevel.value)))
              && p.PersonGeneration == (if personGeneration.Some? then personGeneration else parameters.PersonGeneration)
              && p.EnhancePrompt == enhancePrompt
              && p.AddWatermark == addWatermark
  {
    var withRatio := ApplyAspectRatio(parameters, aspectRatio);
    if withRatio.Failure? {
      return withRatio;
    }
    var filled := FillUnset(withRatio.value, negativePrompt, guidanceScale, language);
    var withLevel := ApplySafetyFilterLevel(filled, safetyFilterLevel);
    if withLevel.Failure? {
      return withLevel;
    }
    var p := ApplyFlags(withLevel.value, personGeneration, enhancePrompt, addWatermark);
    r := Success(p);
  }

  /** A level as stored is accepted again and stored unchanged: upper-casing the stored form is the identity. */
  lemma StoredLevelRevalidates(level: string)
    requires SafetyFilterLevelAccepted(Some(level))
    ensures SafetyFilterLevelAccepted(Some(ToUpperInvariant(level)))
    ensures ToUpperInvariant(ToUpperInvariant(level)) == ToUpperInvariant(level)
  {
    ToUpperIsIdempotent(level);
  }

  class ImageGenerationModel {
    const UseVertexAi: bool

    /** The Google AI constructors (the parameterless one, the logger one and the API key one). */
    constructor ForGoogleAi()
      ensures !UseVertexAi
    {
      UseVertexAi := false;
    }

    /** The Vertex AI constructor; project, region and model go to the base client, which is not modelled. */
    constructor ForVertexAi(projectId: Option<string>, region: Option<string>, model: Option<string>)
      ensures UseVertexAi
    {
      UseVertexAi := true;
    }

    /** Vertex AI speaks v1, Google AI v1beta. */
    function Version(): (v: ApiVersion)
      ensures v == V1 <==> UseVertexAi
    {
      if UseVertexAi then V1 else V1Beta
    }

    /** Vertex AI addresses the model under its publisher; Google AI addresses it directly. */
    function Url(): (u: string)
      ensures u == UrlVertexAi <==> UseVertexAi
      ensures u == UrlGoogleAi <==> !UseVertexAi
    {
      if UseVertexAi then UrlVertexAi else UrlGoogleAi
    }

    /** The request overload: a null request is rejected, anything else is posted as it is. */
    method GenerateImagesFromRequest(request: Option<ImageGenerationRequest>) returns (r: Result<ImagePost, ArgumentError>)
      ensures request.None? <==> r == Failure(ArgumentNull("request"))
      ensures request.Some? ==> r == Success(ImagePost(Version(), Url(), request.value))
    {
      if request.None? {
        return Failure(ArgumentNull("request"));
      }
      r := Success(ImagePost(Version(), Url(), request.value));
    }

    /**
     * The prompt overload: a null prompt is rejected before anything else; then a request
     * for numberOfImages samples is assembled and validated, and only then passed on.
     */
    method GenerateImages(prompt: Option<string>, numberOfImages: int := 1,
                          negativePrompt: Option<string> := None, aspectRatio: Option<string> := None,
                          guidanceScale: Option<int> := None, language: Option<ImagePromptLanguage> := None,
                          safetyFilterLevel: Option<string> := None,
                          personGeneration: Option<PersonGeneration> := None,
                          enhancePrompt: Option<bool> := None, addWatermark: Option<bool> := None)
      returns (r: Result<ImagePost, ArgumentError>)
      ensures prompt.None? ==> r == Failure(ArgumentNull("prompt"))
      ensures r.Success? <==>
                prompt.Some? && AspectRatioAccepted(aspectRatio) && SafetyFilterLevelAccepted(safetyFilterLevel)
      ensures prompt.Some? && !AspectRatioAccepted(aspectRatio) ==> r == Failure(InvalidArgument("aspectRatio"))
      ensures prompt.Some? && AspectRatioAccepted(aspectRatio) && !SafetyFilterLevelAccepted(safetyFilterLevel) ==>
                r == Failure(InvalidArgument("safetyFilterLevel"))
      ensures r.Success? ==>
                var p := r.value.request.Parameters;
                && r.value.version == Version() && r.value.urlTemplate == Url()
                && r.value.request.Prompt == prompt.value && p.SampleCount == numberOfImages
                && p.AspectRatio == (if IsNullOrEmpty(aspectRatio) then None else aspectRatio)
                && p.NegativePrompt == negativePrompt && p.GuidanceScale == guidanceScale && p.Language == language
                && p.SafetyFilterLevel ==
                     (if IsNullOrEmpty(safetyFilterLevel) then None else Some(ToUpperInvariant(safetyFilterLevel.value)))
                && p.PersonGeneration == personGeneration
                && p.EnhancePrompt == enhancePrompt && p.AddWatermark == addWatermark
    {
      if prompt.None? {
        return Failure(ArgumentNull("prompt"));
      }
      var request := NewRequest(prompt.value, numberOfImages);
      var parameters := AssembleParameters(request.Parameters, negativePrompt, aspectRatio, guidanceScale, language,
                                           safetyFilterLevel, personGeneration, enhancePrompt, addWatermark);
      if parameters.Failure? {
        return Failure(parameters.error);
      }
      request := request.(Parameters := parameters.value);
      r := GenerateImagesFromRequest(Some(request));
    }

    /** The generic entry point: the prompt overload with every setting left at its default. */
    method GenerateContent(prompt: Option<string>) returns (r: Result<ImagePost, ArgumentError>)
      ensures prompt.None? <==> r == Failure(ArgumentNull("prompt"))
      ensures prompt.Some? ==> r == Success(ImagePost(Version(), Url(), NewRequest(prompt.value, 1)))
    {
      r := GenerateImages(prompt);
    }
  }
}
