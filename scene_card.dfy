/** The scene card: the per-field edit handler, the two text fields that are
    parsed back into structured data, and the thumbnail area. */
module SceneCard {
  import opened Types
  import opened JsString

  datatype CameraField = Angle | ShotType | FocalLength | Aperture | ShutterSpeed | Movement
  datatype SoundField = Music | Sfx
  datatype CharacterField = Name | AgeRange | Looks | Clothing | DominantEmotion

  /** One call of the card's update handler: the field written and where it
      lives (top level, camera, sound, or a character picked by index; an
      undefined index is None). */
  datatype SceneEdit =
    | SetSummary(text: string)
    | SetLighting(text: string)
    | SetShotInstructions(lines: seq<string>)
    | SetCamera(cameraField: CameraField, text: string)
    | SetSound(soundField: SoundField, text: string)
    | SetCharacter(charIndex: Option<int>, characterField: CharacterField, text: string)

  function CameraGet(c: Camera, f: CameraField): string {
    match f
    case Angle => c.angle
    case ShotType => c.shot_type
    case FocalLength => c.focal_length
    case Aperture => c.aperture
    case ShutterSpeed => c.shutter_speed
    case Movement => c.movement
  }

  /** `{ ...camera, [field]: value }` */
  function CameraSet(c: Camera, f: CameraField, v: string): (r: Camera)
    ensures CameraGet(r, f) == v
    ensures forall g :: g != f ==> CameraGet(r, g) == CameraGet(c, g)
  {
    match f
    case Angle => c.(angle := v)
    case ShotType => c.(shot_type := v)
    case FocalLength => c.(focal_length := v)
    case Aperture => c.(aperture := v)
    case ShutterSpeed => c.(shutter_speed := v)
    case Movement => c.(movement := v)
  }

  function SoundGet(s: Sound, f: SoundField): string {
    match f
    case Music => s.music
    case Sfx => s.sfx
  }

  /** `{ ...sound, [field]: value }` */
  function SoundSet(s: Sound, f: SoundField, v: string): (r: Sound)
    ensures SoundGet(r, f) == v
    ensures forall g :: g != f ==> SoundGet(r, g) == SoundGet(s, g)
  {
    match f
    case Music => s.(music := v)
    case Sfx => s.(sfx := v)
  }

  function CharacterGet(c: Character, f: CharacterField): string {
    match f
    case Name => c.name
    case AgeRange => c.age_range
    case Looks => c.looks
    case Clothing => c.clothing
    case DominantEmotion => c.dominant_emotion
  }

  /** `{ ...character, [field]: value }` */
  function CharacterSet(c: Character, f: CharacterField, v: string): (r: Character)
    ensures CharacterGet(r, f) == v
    ensures forall g :: g != f ==> CharacterGet(r, g) == CharacterGet(c, g)
  {
    match f
    case Name => c.(name := v)
    case AgeRange => c.(age_range := v)
    case Looks => c.(looks := v)
    case Clothing => c.(clothing := v)
    case DominantEmotion => c.(dominant_emotion := v)
  }

  /** The scene the update handler builds: exactly the named field of the
      named part changes. A character edit with an undefined index falls
      through to a top-level write of a key that `Scene` does not have, and
      one whose index matches no character rewrites none: both leave every
      scene field as it was. */
  function ApplyEdit(scene: Scene, edit: SceneEdit): (r: Scene)
    ensures r.id == scene.id
    ensures edit.SetSummary? ==> r.summary == edit.text && r.(summary := scene.summary) == scene
    ensures edit.SetLighting? ==> r.lighting == edit.text && r.(lighting := scene.lighting) == scene
    ensures edit.SetShotInstructions? ==>
      r.shot_instructions == edit.lines && r.(shot_instructions := scene.shot_instructions) == scene
    ensures edit.SetCamera? ==>
      && r.(camera := scene.camera) == scene
      && CameraGet(r.camera, edit.cameraField) == edit.text
      && forall g :: g != edit.cameraField ==> CameraGet(r.camera, g) == CameraGet(scene.camera, g)
    ensures edit.SetSound? ==>
      && r.(sound := scene.sound) == scene
      && SoundGet(r.sound, edit.soundField) == edit.text
      && forall g :: g != edit.soundField ==> SoundGet(r.sound, g) == SoundGet(scene.sound, g)
    ensures edit.SetCharacter? ==>
      && r.(characters := scene.characters) == scene
      && |r.characters| == |scene.characters|
      && forall j :: 0 <= j < |scene.characters| && edit.charIndex != Some(j) ==>
           r.characters[j] == scene.characters[j]
    ensures edit.SetCharacter? && edit.charIndex.Some? && 0 <= edit.charIndex.value < |scene.characters| ==>
      var i := edit.charIndex.value;
      && CharacterGet(r.characters[i], edit.characterField) == edit.text
      && forall g :: g != edit.characterField ==>
           CharacterGet(r.characters[i], g) == CharacterGet(scene.characters[i], g)
    ensures edit.SetCharacter? && (edit.charIndex.None? || !(0 <= edit.charIndex.value < |scene.characters|)) ==>
      r == scene
  {
    match edit
    case SetCamera(f, v) => scene.(camera := CameraSet(scene.camera, f, v))
    case SetSound(f, v) => scene.(sound := SoundSet(scene.sound, f, v))
    case SetCharacter(Some(i), f, v) =>
      var cs := scene.characters;
      var updated := seq(|cs|, j requires 0 <= j < |cs| => if j == i then CharacterSet(cs[j], f, v) else cs[j]);
      assert !(0 <= i < |cs|) ==> updated == cs;
      scene.(characters := updated)
    case SetCharacter(None, _, _) => scene
    case SetSummary(v) => scene.(summary := v)
    case SetLighting(v) => scene.(lighting := v)
    case SetShotInstructions(lines) => scene.(shot_instructions := lines)
  }

  /** `handleUpdate`: the edited scene, reported under the card's scene id,
      which no edit changes. */
  function HandleUpdate(scene: Scene, edit: SceneEdit): (r: (string, Scene))
    ensures r.0 == scene.id && r.1.id == scene.id
    ensures r.1 == ApplyEdit(scene, edit)
  {
    (scene.id, ApplyEdit(scene, edit))
  }

  // ---------------------------------------------------------------------
  // Shot instructions: one text area, one line per instruction

  const Newline: string := "\n"

  function ShotInstructionsText(lines: seq<string>): string {
    Join(lines, Newline)
  }

  function ShotInstructionsEdit(text: string): SceneEdit {
    SetShotInstructions(Split(text, Newline))
  }

  /** Submitting the shown text unchanged gives back the instruction list,
      provided it is not empty and no instruction holds a line break; an
      empty list comes back as one empty instruction. */
  lemma ShotInstructionsRoundTrip(scene: Scene)
    ensures var lines := scene.shot_instructions;
      var r := ApplyEdit(scene, ShotInstructionsEdit(ShotInstructionsText(lines)));
      && ((lines != [] && forall j, k :: 0 <= j < |lines| && 0 <= k < |lines[j]| ==> lines[j][k] != '\n')
          ==> r == scene)
      && (lines == [] ==> r.shot_instructions == [""])
  {
    var lines := scene.shot_instructions;
    if lines != [] && (forall j, k :: 0 <= j < |lines| && 0 <= k < |lines[j]| ==> lines[j][k] != '\n') {
      SplitJoin(lines, Newline);
    }
    if lines == [] {
      assert IndexOf("", Newline) == -1;
    }
  }

  /** Whatever is typed, the text shown after the edit is the text typed. */
  lemma ShotInstructionsTextKept(scene: Scene, text: string)
    ensures ShotInstructionsText(ApplyEdit(scene, ShotInstructionsEdit(text)).shot_instructions) == text
  {
    JoinSplit(text, Newline);
  }

  // ---------------------------------------------------------------------
  // The one-line character description

  const CommaSpace: string := ", "

  /** The text shown for a character's age, looks, clothing and emotion. */
  function DescriptionText(c: Character): string {
    c.age_range + CommaSpace + c.looks + ", wearing " + c.clothing + ". Emotion: " + c.dominant_emotion
  }

  /** The simplified description handler: only `looks` is written, with
      the text after the first ", " of what was typed ("" when there is
      none); name, age range, clothing and emotion keep their values. */
  function EditDescription(scene: Scene, index: nat, text: string): (r: Scene)
    ensures r.(characters := scene.characters) == scene
    ensures |r.characters| == |scene.characters|
    ensures forall j :: 0 <= j < |scene.characters| && j != index ==> r.characters[j] == scene.characters[j]
    ensures index < |scene.characters| ==>
      var c := scene.characters[index];
      r.characters[index] == c.(looks := AfterFirst(text, CommaSpace))
  {
    JoinTailOfSplit(text, CommaSpace);
    ApplyEdit(scene, SetCharacter(Some(index), Looks, Join(Split(text, CommaSpace)[1..], CommaSpace)))
  }

  /** The description is not parsed back as shown: when the age range has
      no comma, submitting the shown text unchanged makes `looks` absorb
      the clothing and emotion parts of the line. */
  lemma DescriptionEditAbsorbsTail(scene: Scene, index: nat)
    requires index < |scene.characters|
    requires forall k :: 0 <= k < |scene.characters[index].age_range| ==> scene.characters[index].age_range[k] != ','
    ensures var c := scene.characters[index];
      EditDescription(scene, index, DescriptionText(c)).characters[index].looks
      == c.looks + ", wearing " + c.clothing + ". Emotion: " + c.dominant_emotion
  {
    var c := scene.characters[index];
    var a := c.age_range;
    var tail := c.looks + ", wearing " + c.clothing + ". Emotion: " + c.dominant_emotion;
    var s := DescriptionText(c);
    assert s == a + CommaSpace + tail;
    assert OccursAt(s, CommaSpace, |a|);
    forall k | 0 <= k < |a| ensures !OccursAt(s, CommaSpace, k) {
      assert s[k] == a[k];
    }
    assert IndexOf(s, CommaSpace) == |a|;
    assert AfterFirst(s, CommaSpace) == tail;
  }

  // ---------------------------------------------------------------------
  // Thumbnail area

  /** What the thumbnail area of a card shows. */
  datatype ThumbnailView = ShowImage(src: string) | ShowSpinner | ShowFailure | ShowNothing

  /** The three independent conditions of the card's markup. */
  predicate ImageShown(url: Option<string>) {
    url.Some? && url.value != "" && url.value != LoadingMarker && url.value != ErrorMarker
  }

  predicate SpinnerShown(url: Option<string>) {
    url == Some(LoadingMarker)
  }

  predicate FailureShown(url: Option<string>) {
    url == Some(ErrorMarker)
  }

  /** Exactly one of the four views, each exactly when its condition holds;
      nothing is shown for an absent or empty URL. */
  function ThumbnailDisplay(url: Option<string>): (r: ThumbnailView)
    ensures r.ShowImage? <==> ImageShown(url)
    ensures r.ShowImage? ==> r.src == url.value
    ensures r.ShowSpinner? <==> SpinnerShown(url)
    ensures r.ShowFailure? <==> FailureShown(url)
    ensures r.ShowNothing? <==> url == None || url == Some("")
  {
    if ImageShown(url) then ShowImage(url.value)
    else if SpinnerShown(url) then ShowSpinner
    else if FailureShown(url) then ShowFailure
    else ShowNothing
  }

  /** At most one of the three markup conditions holds at a time. */
  lemma ThumbnailConditionsExclusive(url: Option<string>)
    ensures !(ImageShown(url) && SpinnerShown(url))
    ensures !(ImageShown(url) && FailureShown(url))
    ensures !(SpinnerShown(url) && FailureShown(url))
  {
  }
}
