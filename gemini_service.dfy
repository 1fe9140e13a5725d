/** The request builders and response checks around the three calls to the
    hosted generative service: the moodboard structure, one scene image, and
    a fresh consolidated prompt. Each call is a function parameter from the
    request the application sends to the reply it gets, so any reply, success
    or failure, can be supplied. */
module GeminiService {
  import opened Types
  import opened JsString

  // ---------------------------------------------------------------------
  // Prompt text

  /** The scene-count and duration constraint for a target length: the 8s
      and 16s texts state exactly the number of scenes, the target total and
      the durations of the plan; the 30s text asks for four or five scenes
      and lists no durations. */
  function LengthConstraints(length: VideoLength): (r: string)
    ensures DurationPlan(length).Some? ==>
      r == PlanText(DurationPlan(length).value, TargetSeconds(length))
    ensures DurationPlan(length).None? ==>
      r == "Produce 4-5 scenes, total ~" + NatText(TargetSeconds(length)) + "s. Use varied durations."
  {
    match length
    case Len8s => Plan8sText(); Constraints8s
    case Len16s => Plan16sText(); Constraints16s
    case Len30s => Plan30sText(); Constraints30s
  }

  const Constraints8s: string := "Produce 2 scenes, total ~8s. Scene durations: 3s, 5s."
  const Constraints16s: string := "Produce 3 scenes, total ~16s. Scene durations: 4s, 8s, 4s."
  const Constraints30s: string := "Produce 4-5 scenes, total ~30s. Use varied durations."

  /** The number of seconds a target length names. */
  function TargetSeconds(length: VideoLength): nat {
    match length
    case Len8s => 8
    case Len16s => 16
    case Len30s => 30
  }

  /** The per-scene durations a constraint lists, when it lists them. */
  function DurationPlan(length: VideoLength): Option<seq<nat>> {
    match length
    case Len8s => Some([3, 5])
    case Len16s => Some([4, 8, 4])
    case Len30s => None
  }

  function Sum(ds: seq<nat>): nat {
    if ds == [] then 0 else ds[0] + Sum(ds[1..])
  }

  /** Decimal text of a number below one hundred. */
  function NatText(n: nat): (r: string)
    requires n < 100
    ensures 1 <= |r| <= 2
  {
    if n < 10 then [Digit(n)] else [Digit(n / 10), Digit(n % 10)]
  }

  function Digit(d: nat): char
    requires d < 10
  {
    ('0' as int + d) as char
  }

  function SecondsList(ds: seq<nat>): seq<string>
    requires forall i :: 0 <= i < |ds| ==> ds[i] < 100
  {
    seq(|ds|, i requires 0 <= i < |ds| => NatText(ds[i]) + "s")
  }

  /** The listed durations add up to the target, and only the 30-second
      constraint lists none. */
  lemma DurationPlanAddsUp(length: VideoLength)
    ensures DurationPlan(length).Some? ==> Sum(DurationPlan(length).value) == TargetSeconds(length)
    ensures DurationPlan(length).None? <==> length == Len30s
  {
    match length
    case Len8s => assert Sum([3, 5]) == 3 + Sum([5]);
    case Len16s => assert Sum([4, 8, 4]) == 4 + Sum([8, 4]);
    case Len30s =>
  }

  function PlanText(ds: seq<nat>, target: nat): string
    requires |ds| < 100 && target < 100
    requires forall i :: 0 <= i < |ds| ==> ds[i] < 100
  {
    "Produce " + NatText(|ds|) + " scenes, total ~" + NatText(target)
    + "s. Scene durations: " + Join(SecondsList(ds), ", ") + "."
  }

  lemma Plan8sText()
    ensures Constraints8s == PlanText([3, 5], 8)
  {
    var ds: seq<nat> := [3, 5];
    assert NatText(2) == "2" && NatText(3) == "3" && NatText(5) == "5" && NatText(8) == "8";
    var ss := SecondsList(ds);
    assert |ss| == 2 && ss[0] == "3s" && ss[1] == "5s";
    assert ss == ["3s", "5s"];
    assert Join(ss, ", ") == "3s, 5s" by {
      assert Join(ss, ", ") == "3s" + ", " + Join(["5s"], ", ");
    }
    assert PlanText(ds, 8)
           == "Produce " + "2" + " scenes, total ~" + "8" + "s. Scene durations: " + "3s, 5s" + ".";
    Text8sPieces();
  }

  lemma Plan16sText()
    ensures Constraints16s == PlanText([4, 8, 4], 16)
  {
    var ds: seq<nat> := [4, 8, 4];
    assert NatText(3) == "3" && NatText(4) == "4" && NatText(8) == "8" && NatText(16) == "16";
    var ss := SecondsList(ds);
    assert |ss| == 3 && ss[0] == "4s" && ss[1] == "8s" && ss[2] == "4s";
    assert ss == ["4s", "8s", "4s"];
    assert Join(ss, ", ") == "4s, 8s, 4s" by {
      assert Join(["8s", "4s"], ", ") == "8s" + ", " + Join(["4s"], ", ");
      assert Join(ss, ", ") == "4s" + ", " + Join(["8s", "4s"], ", ");
    }
    assert PlanText(ds, 16)
           == "Produce " + "3" + " scenes, total ~" + "16" + "s. Scene durations: " + "4s, 8s, 4s" + ".";
    Text16sPieces();
  }

  // The steps below split the literal constraint texts into the pieces
  // of the plan template, one small equation at a time.

  lemma Text8sPieces()
    ensures Constraints8s
            == "Produce " + "2" + " scenes, total ~" + "8" + "s. Scene durations: " + "3s, 5s" + "."
  {
    var x := "Produce " + "2" + " scenes, total ~" + "8";
    var h := "Produce 2 scenes, total ~8s.";
    var durationsLabel := " Scene durations: ";
    Constraints8sHalves();
    Constraints8sHead();
    Constraints8sTail();
    ScenesDurationsLabel();
    AppendAssoc(x, "s.", durationsLabel);
    AppendAssoc(h, durationsLabel, "3s, 5s");
    AppendAssoc(h, durationsLabel + "3s, 5s", ".");
  }

  lemma Constraints8sHalves()
    ensures Constraints8s == "Produce 2 scenes, total ~8s." + " Scene durations: 3s, 5s."
  {
    assert Constraints8s == "Produce 2 scenes, total ~8s. Scene durations: 3s, 5s.";
    SplitConstraints8s();
  }

  lemma SplitConstraints8s()
    ensures "Produce 2 scenes, total ~8s. Scene durations: 3s, 5s."
            == "Produce 2 scenes, total ~8s." + " Scene durations: 3s, 5s."
  {
  }

  lemma Constraints8sHead()
    ensures "Produce 2 scenes, total ~8s." == "Produce " + "2" + " scenes, total ~" + "8" + "s."
  {
  }

  lemma Constraints8sTail()
    ensures " Scene durations: 3s, 5s." == " Scene durations: " + "3s, 5s" + "."
  {
  }

  lemma Text16sPieces()
    ensures Constraints16s
            == "Produce " + "3" + " scenes, total ~" + "16" + "s. Scene durations: " + "4s, 8s, 4s" + "."
  {
    var x := "Produce " + "3" + " scenes, total ~" + "16";
    var h := "Produce 3 scenes, total ~16s.";
    var durationsLabel := " Scene durations: ";
    Constraints16sHalves();
    Constraints16sHead();
    Constraints16sTail();
    ScenesDurationsLabel();
    AppendAssoc(x, "s.", durationsLabel);
    AppendAssoc(h, durationsLabel, "4s, 8s, 4s");
    AppendAssoc(h, durationsLabel + "4s, 8s, 4s", ".");
  }

  lemma Constraints16sHalves()
    ensures Constraints16s == "Produce 3 scenes, total ~16s." + " Scene durations: 4s, 8s, 4s."
  {
    assert Constraints16s == "Produce 3 scenes, total ~16s. Scene durations: 4s, 8s, 4s.";
    SplitConstraints16s();
  }

  lemma SplitConstraints16s()
    ensures "Produce 3 scenes, total ~16s. Scene durations: 4s, 8s, 4s."
            == "Produce 3 scenes, total ~16s." + " Scene durations: 4s, 8s, 4s."
  {
  }

  lemma Constraints16sHead()
    ensures "Produce 3 scenes, total ~16s." == "Produce " + "3" + " scenes, total ~" + "16" + "s."
  {
  }

  lemma Constraints16sTail()
    ensures " Scene durations: 4s, 8s, 4s." == " Scene durations: " + "4s, 8s, 4s" + "."
  {
  }

  lemma ScenesDurationsLabel()
    ensures "s. Scene durations: " == "s." + " Scene durations: "
  {
  }

  lemma Plan30sText()
    ensures Constraints30s
            == "Produce 4-5 scenes, total ~" + NatText(30) + "s. Use varied durations."
  {
    assert NatText(30) == "30";
    assert Constraints30s == "Produce 4-5 scenes, total ~30s. Use varied durations.";
    SplitConstraints30s();
  }

  lemma SplitConstraints30s()
    ensures "Produce 4-5 scenes, total ~30s. Use varied durations."
            == "Produce 4-5 scenes, total ~" + "30" + "s. Use varied durations."
  {
  }

  lemma AppendAssoc(a: string, b: string, c: string)
    ensures a + (b + c) == (a + b) + c
  {
  }

  const CinematicStyle: string :=
    "Visual style: cinematic, balanced composition, professional lighting, filmic colors. Tone: engaging, high-quality."
  const ComedyStyle: string :=
    "Visual style: bright, saturated, handheld camera, quick cuts. Tone: comedic, upbeat."
  const EdgyStyle: string :=
    "Visual style: high contrast, desaturated colors with a single color pop, dramatic shadows, slow/unconventional camera moves. Tone: edgy, mysterious, fashion-forward."
  const ChildrensStyle: string :=
    "Visual style: soft, pastel colors, whimsical and gentle lighting, smooth camera movements. Tone: innocent, magical, heartwarming."

  /** The tone and visual instructions for a style preset: only
      comedy-short, edgy-editorial and childrens-story have their own
      instructions; every other preset gets the cinematic text. */
  function StyleInstructions(preset: StylePreset): (r: string)
    ensures r == CinematicStyle <==> !(preset.ComedyShort? || preset.EdgyEditorial? || preset.ChildrensStory?)
  {
    match preset
    case ComedyShort => ComedyStyleLength(); CinematicStyleLength(); ComedyStyle
    case EdgyEditorial => EdgyStyleLength(); CinematicStyleLength(); EdgyStyle
    case ChildrensStory => ChildrensStyleLength(); CinematicStyleLength(); ChildrensStyle
    case _ => CinematicStyle
  }

  /** The three presets with their own instructions get three different
      texts. */
  lemma StyleInstructionsDistinct(p: StylePreset, q: StylePreset)
    ensures StyleInstructions(p) == StyleInstructions(q)
            <==> p == q || (StyleInstructions(p) == CinematicStyle && StyleInstructions(q) == CinematicStyle)
  {
    // the four texts have four different lengths
    CinematicStyleLength();
    ComedyStyleLength();
    EdgyStyleLength();
    ChildrensStyleLength();
  }

  lemma CinematicStyleLength() ensures |CinematicStyle| == 114 {}
  lemma ComedyStyleLength() ensures |ComedyStyle| == 84 {}
  lemma EdgyStyleLength() ensures |EdgyStyle| == 165 {}
  lemma ChildrensStyleLength() ensures |ChildrensStyle| == 129 {}

  /** How a template literal renders the aspect-ratio argument; an omitted
      argument renders as "undefined". */
  function AspectRatioText(aspect: Option<AspectRatio>): string {
    match aspect
    case None => "undefined"
    case Some(Wide16x9) => "16:9"
    case Some(Tall9x16) => "9:16"
    case Some(Square1x1) => "1:1"
    case Some(Classic4x3) => "4:3"
  }

  const PromptOpening: string := "\n    USER_INPUT: \""
  const PromptConstraintsLabel: string := "\"\n    CONSTRAINTS: "

  function UserPromptHead(story: string): string {
    PromptOpening + story + PromptConstraintsLabel
  }

  const PromptTailOpening: string := " Include a Final Prompt tuned for Runway/Pika: include aspect ratio "
  const PromptTailClosing: string :=
    ", 24fps, cinematic lens, and specific music/SFX cues. Output JSON only.\n  "

  function UserPromptTail(aspect: Option<AspectRatio>): string {
    PromptTailOpening + AspectRatioText(aspect) + PromptTailClosing
  }

  /** The user prompt of the structure request. */
  function UserPrompt(story: string, length: VideoLength, preset: StylePreset,
                      aspect: Option<AspectRatio>): string
  {
    UserPromptHead(story) + LengthConstraints(length) + " " + StyleInstructions(preset)
    + UserPromptTail(aspect)
  }

  /** The user prompt quotes the story first, then places the length
      constraints, then (after one space) the style instructions. */
  lemma UserPromptLayout(story: string, length: VideoLength, preset: StylePreset,
                         aspect: Option<AspectRatio>)
    ensures var p := UserPrompt(story, length, preset, aspect);
            var lc := LengthConstraints(length);
            var k := |UserPromptHead(story)|;
            && k == |story| + 37
            && OccursAt(p, story, 18)
            && OccursAt(p, lc, k)
            && OccursAt(p, " ", k + |lc|)
            && OccursAt(p, StyleInstructions(preset), k + |lc| + 1)
  {
    var h := UserPromptHead(story);
    HeadLayout(story);
    PiecesInPlace(h, LengthConstraints(length), StyleInstructions(preset), UserPromptTail(aspect));
    OccursWithin(UserPrompt(story, length, preset, aspect), h, story, 18);
  }

  /** Where each piece of `h + a + " " + b + t` starts. */
  lemma PiecesInPlace(h: string, a: string, b: string, t: string)
    ensures var p := h + a + " " + b + t;
      && OccursAt(p, h, 0)
      && OccursAt(p, a, |h|)
      && OccursAt(p, " ", |h| + |a|)
      && OccursAt(p, b, |h| + |a| + 1)
  {
    var p := h + a + " " + b + t;
    assert p[..|h|] == h;
    assert p[|h|..|h| + |a|] == a;
    assert p[|h| + |a|..|h| + |a| + 1] == " ";
    assert p[|h| + |a| + 1..|h| + |a| + 1 + |b|] == b;
  }

  /** An occurrence inside a prefix is an occurrence in the whole. */
  lemma OccursWithin(p: string, h: string, x: string, k: int)
    requires OccursAt(p, h, 0) && OccursAt(h, x, k)
    ensures OccursAt(p, x, k)
  {
    assert p[k..k + |x|] == h[k..k + |x|];
  }

  lemma HeadLayout(story: string)
    ensures |UserPromptHead(story)| == |story| + 37
    ensures OccursAt(UserPromptHead(story), story, 18)
  {
    assert |PromptOpening| == 18;
    assert |PromptConstraintsLabel| == 19;
    assert UserPromptHead(story)[18..18 + |story|] == story;
  }

  // ---------------------------------------------------------------------
  // The structure request

  /** What a failed call threw: an `Error` instance with its message, or
      some other value. */
  datatype Thrown = ErrorInstance(message: string) | NonError

  /** The parsed JSON reply: an object with the three fields the check reads,
      or a value that is not an object (a number, string, boolean or array,
      whose fields read as undefined). `title` and `final_prompt` are a
      string or undefined; `scenes` is an array or something else (None). */
  datatype ParsedReply =
    | NotAnObject
    | Object(title: Option<string>, scenes: Option<seq<Scene>>, final_prompt: Option<string>)

  /** The structure call either throws (the network call, reading the reply
      text or parsing it as JSON) or yields a parsed value. */
  datatype ContentReply = ContentThrew(thrown: Thrown) | Parsed(json: ParsedReply)

  /** JavaScript truthiness of a string field that may be undefined. */
  predicate Truthy(field: Option<string>) {
    field.Some? && field.value != ""
  }

  /** The structural check on the parsed reply. */
  predicate ValidStructure(p: ParsedReply) {
    p.Object? && Truthy(p.title) && p.scenes.Some? && Truthy(p.final_prompt)
  }

  const FailurePrefix: string := "Failed to generate moodboard: "
  const InvalidStructureMessage: string := "Invalid JSON structure received from API."
  const UnexpectedMessage: string := "An unexpected error occurred while generating the moodboard."

  /** `generateMoodboard`: sends the user prompt, checks the reply's
      structure, and wraps every failure. */
  function GenerateMoodboard(story: string, length: VideoLength, preset: StylePreset,
                             aspect: Option<AspectRatio>,
                             service: string -> ContentReply): (r: Result<Moodboard, string>)
    ensures var reply := service(UserPrompt(story, length, preset, aspect));
      && (r.Ok? <==> reply.Parsed? && ValidStructure(reply.json))
      && (r.Ok? ==> && r.value.title == reply.json.title.value && r.value.title != ""
                    && r.value.scenes == reply.json.scenes.value
                    && r.value.final_prompt == reply.json.final_prompt.value
                    && r.value.final_prompt != ""
                    && r.value.isDirty.None?)
      && (r.Err? && !(reply.ContentThrew? && reply.thrown.NonError?) ==> IsPrefix(FailurePrefix, r.error))
      && (reply.ContentThrew? && reply.thrown.NonError? ==> r == Err(UnexpectedMessage))
      && (reply.Parsed? && !ValidStructure(reply.json) ==>
            r == Err(FailurePrefix + InvalidStructureMessage))
  {
    match service(UserPrompt(story, length, preset, aspect))
    case ContentThrew(ErrorInstance(msg)) => Err(FailurePrefix + msg)
    case ContentThrew(NonError) => Err(UnexpectedMessage)
    case Parsed(json) =>
      if !ValidStructure(json) then Err(FailurePrefix + InvalidStructureMessage)
      else Ok(Moodboard(json.title.value, json.scenes.value, json.final_prompt.value, None))
  }

  predicate IsPrefix(prefix: string, s: string) {
    |prefix| <= |s| && s[..|prefix|] == prefix
  }

  /** The check accepts an empty scene list. */
  lemma EmptyScenesAccepted(title: string, finalPrompt: string)
    requires title != "" && finalPrompt != ""
    ensures ValidStructure(Object(Some(title), Some([]), Some(finalPrompt)))
  {
  }

  // ---------------------------------------------------------------------
  // The image request

  datatype ImageRequest = ImageRequest(prompt: string, aspectRatio: Option<AspectRatio>)

  /** The image call throws, or returns a list of images (`generatedImages`,
      None when undefined), each given by its base64 bytes. */
  datatype ImageReply = ImageThrew(thrown: Thrown) | Images(generated: Option<seq<string>>)

  const ImagePromptSuffix: string := ", cinematic, high detail, vibrant colors"
  const DataUrlPrefix: string := "data:image/jpeg;base64,"
  const NoImageMessage: string := "No image was generated."

  /** `generateSingleImage`: a JPEG data URL of the first image, or the
      failure, rethrown unchanged. */
  function GenerateSingleImage(prompt: string, aspect: Option<AspectRatio>,
                               service: ImageRequest -> ImageReply): (r: Result<string, Thrown>)
    ensures var reply := service(ImageRequest(prompt + ImagePromptSuffix, aspect));
      && (r.Ok? <==> reply.Images? && reply.generated.Some? && |reply.generated.value| > 0)
      && (r.Ok? ==> r.value == DataUrlPrefix + reply.generated.value[0])
      && (reply.ImageThrew? ==> r == Err(reply.thrown))
      && (reply.Images? && !r.Ok? ==> r == Err(ErrorInstance(NoImageMessage)))
  {
    match service(ImageRequest(prompt + ImagePromptSuffix, aspect))
    case ImageThrew(thrown) => Err(thrown)
    case Images(generated) =>
      if generated.Some? && |generated.value| > 0 then Ok(DataUrlPrefix + generated.value[0])
      else Err(ErrorInstance(NoImageMessage))
  }

  /** A generated image URL is a non-empty string that is neither of the
      thumbnail markers. */
  lemma ImageUrlIsNotAMarker(prompt: string, aspect: Option<AspectRatio>,
                             service: ImageRequest -> ImageReply)
    ensures var r := GenerateSingleImage(prompt, aspect, service);
      r.Ok? ==> r.value != "" && r.value != LoadingMarker && r.value != ErrorMarker
  {
    assert |DataUrlPrefix| == 23 && |LoadingMarker| == 7 && |ErrorMarker| == 5;
  }

  // ---------------------------------------------------------------------
  // The prompt-regeneration request

  /** The data sent for prompt regeneration: the title and the scenes. */
  datatype PromptPayload = PromptPayload(title: string, scenes: seq<Scene>)

  /** The text call throws, or returns a reply whose `text` may be undefined. */
  datatype TextReply = TextThrew(thrown: Thrown) | TextReturned(text: Option<string>)

  const PromptFailureMessage: string := "Failed to update the final prompt."

  /** `regenerateFinalPrompt`: the trimmed reply text, or one fixed message
      for every failure. */
  function RegenerateFinalPrompt(m: Moodboard, service: PromptPayload -> TextReply): (r: Result<string, string>)
    ensures var reply := service(PromptPayload(m.title, m.scenes));
      && (r.Ok? <==> reply.TextReturned? && reply.text.Some?)
      && (r.Ok? ==> r.value == Trim(reply.text.value))
      && (r.Ok? && r.value != "" ==> !IsWhitespace(r.value[0]) && !IsWhitespace(r.value[|r.value| - 1]))
      && (r.Err? ==> r.error == PromptFailureMessage)
  {
    match service(PromptPayload(m.title, m.scenes))
    case TextReturned(Some(text)) =>
      TrimSpec(text);
      Ok(Trim(text))
    case _ => Err(PromptFailureMessage)
  }

  /** The regenerated prompt depends on the title and the scenes only: the
      current prompt and the dirty flag are not sent. */
  lemma RegenerateReadsTitleAndScenesOnly(m1: Moodboard, m2: Moodboard, service: PromptPayload -> TextReply)
    requires m1.title == m2.title && m1.scenes == m2.scenes
    ensures RegenerateFinalPrompt(m1, service) == RegenerateFinalPrompt(m2, service)
  {
  }
}
