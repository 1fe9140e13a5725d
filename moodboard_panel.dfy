/** The moodboard panel: which of its four views is rendered, the total
    length line and the numbering of the scene cards. */
module MoodboardPanel {
  import opened Types
  import GeminiService

  /** A scene card as the panel renders it: its one-based number and scene. */
  datatype Card = Card(number: nat, scene: Scene)

  /** What the panel renders. */
  datatype PanelView =
    | Skeleton
    | ErrorView(message: string)
    | Welcome
    | Content(title: string, totalLength: real, cards: seq<Card>)

  /** JavaScript truthiness of the error slot. */
  predicate HasError(error: Option<string>) {
    error.Some? && error.value != ""
  }

  /** The four independent conditions of the panel's markup. */
  predicate SkeletonShown(isLoading: bool) {
    isLoading
  }

  predicate ErrorShown(isLoading: bool, error: Option<string>) {
    !isLoading && HasError(error)
  }

  predicate WelcomeShown(isLoading: bool, error: Option<string>, moodboard: Option<Moodboard>) {
    !isLoading && !HasError(error) && moodboard.None?
  }

  predicate ContentShown(isLoading: bool, error: Option<string>, moodboard: Option<Moodboard>) {
    !isLoading && !HasError(error) && moodboard.Some?
  }

  /** The rendered view: each of the four exactly when its markup condition
      holds, so loading hides both the error and the moodboard, and an error
      hides the moodboard. */
  function SelectView(isLoading: bool, error: Option<string>, moodboard: Option<Moodboard>): (r: PanelView)
    ensures r.Skeleton? <==> SkeletonShown(isLoading)
    ensures r.ErrorView? <==> ErrorShown(isLoading, error)
    ensures r.Welcome? <==> WelcomeShown(isLoading, error, moodboard)
    ensures r.Content? <==> ContentShown(isLoading, error, moodboard)
    ensures r.ErrorView? ==> r.message == error.value
    ensures r.Content? ==>
      && r.title == moodboard.value.title
      && r.totalLength == DurationSum(moodboard.value.scenes)
      && |r.cards| == |moodboard.value.scenes|
      && forall i :: 0 <= i < |r.cards| ==> r.cards[i] == Card(i + 1, moodboard.value.scenes[i])
  {
    if isLoading then Skeleton
    else if HasError(error) then ErrorView(error.value)
    else if moodboard.None? then Welcome
    else
      var scenes := moodboard.value.scenes;
      Content(moodboard.value.title, TotalLength(scenes), SceneCards(scenes))
  }

  /** Exactly one of the four markup conditions holds. */
  lemma ExactlyOneView(isLoading: bool, error: Option<string>, moodboard: Option<Moodboard>)
    ensures SkeletonShown(isLoading) || ErrorShown(isLoading, error)
            || WelcomeShown(isLoading, error, moodboard) || ContentShown(isLoading, error, moodboard)
    ensures !(SkeletonShown(isLoading) && ErrorShown(isLoading, error))
    ensures !(ErrorShown(isLoading, error) && ContentShown(isLoading, error, moodboard))
    ensures !(ErrorShown(isLoading, error) && WelcomeShown(isLoading, error, moodboard))
    ensures !(WelcomeShown(isLoading, error, moodboard) && ContentShown(isLoading, error, moodboard))
    ensures SkeletonShown(isLoading) ==>
      !ContentShown(isLoading, error, moodboard) && !WelcomeShown(isLoading, error, moodboard)
  {
  }

  // ---------------------------------------------------------------------
  // Total length

  /** `scenes.reduce((acc, s) => acc + s.duration_seconds, 0)`: a left fold
      from 0, which is the sum of the durations (0 for no scenes). */
  function TotalLength(scenes: seq<Scene>): (r: real)
    ensures r == DurationSum(scenes)
    ensures scenes == [] ==> r == 0.0
  {
    FoldIsSum(scenes, 0.0);
    FoldDurations(scenes, 0.0)
  }

  function FoldDurations(scenes: seq<Scene>, acc: real): real {
    if scenes == [] then acc else FoldDurations(scenes[1..], acc + scenes[0].duration_seconds)
  }

  /** The sum of the scene durations, defined from the right. */
  function DurationSum(scenes: seq<Scene>): real {
    if scenes == [] then 0.0 else scenes[0].duration_seconds + DurationSum(scenes[1..])
  }

  lemma {:induction false} FoldIsSum(scenes: seq<Scene>, acc: real)
    ensures FoldDurations(scenes, acc) == acc + DurationSum(scenes)
    decreases |scenes|
  {
    if scenes != [] {
      FoldIsSum(scenes[1..], acc + scenes[0].duration_seconds);
    }
  }

  /** Scenes whose durations are the ones a length constraint lists add up
      to the target length. */
  lemma {:induction false} PlannedScenesTotalTarget(scenes: seq<Scene>, length: VideoLength)
    requires GeminiService.DurationPlan(length).Some?
    requires var ds := GeminiService.DurationPlan(length).value;
             |scenes| == |ds| && forall i :: 0 <= i < |ds| ==> scenes[i].duration_seconds == ds[i] as real
    ensures TotalLength(scenes) == GeminiService.TargetSeconds(length) as real
  {
    var ds := GeminiService.DurationPlan(length).value;
    DurationSumMatches(scenes, ds);
    assert GeminiService.Sum(ds) == GeminiService.TargetSeconds(length) by {
      GeminiService.DurationPlanAddsUp(length);
    }
  }

  lemma {:induction false} DurationSumMatches(scenes: seq<Scene>, ds: seq<nat>)
    requires |scenes| == |ds| && forall i :: 0 <= i < |ds| ==> scenes[i].duration_seconds == ds[i] as real
    ensures DurationSum(scenes) == GeminiService.Sum(ds) as real
    decreases |ds|
  {
    if ds != [] {
      DurationSumMatches(scenes[1..], ds[1..]);
    }
  }

  // ---------------------------------------------------------------------
  // Numbering

  /** `scenes.map((scene, index) => <SceneCard sceneNumber={index + 1} …/>)` */
  function SceneCards(scenes: seq<Scene>): (r: seq<Card>)
    ensures |r| == |scenes|
    ensures forall i :: 0 <= i < |r| ==> r[i].scene == scenes[i] && r[i].number == i + 1
  {
    seq(|scenes|, i requires 0 <= i < |scenes| => Card(i + 1, scenes[i]))
  }

  /** Cards are numbered 1, 2, … in array order: numbers strictly increase
      and the last one is the scene count. */
  lemma CardNumbering(scenes: seq<Scene>)
    ensures var cards := SceneCards(scenes);
      && (forall i, j :: 0 <= i < j < |cards| ==> cards[i].number < cards[j].number)
      && (cards != [] ==> cards[0].number == 1 && cards[|cards| - 1].number == |scenes|)
  {
  }
}
