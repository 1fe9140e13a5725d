/** The document model of Moodboard Architect: a moodboard is a title, an
    ordered list of scenes and a consolidated text-to-video prompt. */
module Types {

  /** A value that may be absent (`undefined` / `null` in the application). */
  datatype Option<+T> = None | Some(value: T)

  /** The outcome of an operation that can throw: a value, or what was thrown. */
  datatype Result<+T, +E> = Ok(value: T) | Err(error: E)

  /** Target length of the generated video. */
  datatype VideoLength = Len8s | Len16s | Len30s

  /** The eleven style presets a moodboard can be generated in. */
  datatype StylePreset =
    | Cinematic | ComedyShort | EdgyEditorial | ChildrensStory
    | Animation3D | ActionPacked | CorporateExplainer | Documentary
    | Editorial | RetroFilm | TimeLapse

  datatype AspectRatio = Wide16x9 | Tall9x16 | Square1x1 | Classic4x3

  datatype Character = Character(
    name: string,
    age_range: string,
    looks: string,
    clothing: string,
    dominant_emotion: string)

  datatype Camera = Camera(
    angle: string,
    shot_type: string,
    focal_length: string,
    aperture: string,
    shutter_speed: string,
    movement: string)

  datatype Sound = Sound(music: string, sfx: string)

  /** `thumbnail_url` is absent, an image URL, or one of the in-band markers
      "loading" and "error" (see LoadingMarker and ErrorMarker). */
  datatype Scene = Scene(
    id: string,
    summary: string,
    duration_seconds: real,
    camera: Camera,
    characters: seq<Character>,
    lighting: string,
    color_palette: seq<string>,
    sound: Sound,
    shot_instructions: seq<string>,
    thumbnail_prompt: string,
    thumbnail_url: Option<string>)

  datatype Moodboard = Moodboard(
    title: string,
    scenes: seq<Scene>,
    final_prompt: string,
    isDirty: Option<bool>)

  /** The thumbnail marker of a scene whose image is being generated. */
  const LoadingMarker: string := "loading"

  /** The thumbnail marker of a scene whose image generation failed. */
  const ErrorMarker: string := "error"
}
