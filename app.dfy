/** The application controller: the React state of the page and the
    handlers that change it, with the pure rules they rely on (theme,
    scene replacement, export file names and PDF pagination). */
module App {
  import opened Types
  import opened JsString
  import GeminiService
  import SceneCard
  import MoodboardPanel

  // ---------------------------------------------------------------------
  // Theme

  datatype Theme = Light | Dark

  /** The stored spelling of a theme. */
  function ThemeName(t: Theme): string {
    match t
    case Light => "light"
    case Dark => "dark"
  }

  /** The initial theme: a stored value is accepted only when it spells a
      theme exactly; anything else, or nothing stored, gives dark. */
  function InitialTheme(stored: Option<string>): (r: Theme)
    ensures r == Light <==> stored == Some("light")
    ensures stored != Some(ThemeName(r)) ==> r == Dark
  {
    if stored == Some("light") then Light else Dark
  }

  /** Storing a theme and reading it back gives the same theme. */
  lemma StoredThemeRoundTrip(t: Theme)
    ensures InitialTheme(Some(ThemeName(t))) == t
  {
  }

  /** The other theme. */
  function Toggled(t: Theme): (r: Theme)
    ensures r != t
  {
    if t == Light then Dark else Light
  }

  /** Toggling twice restores the theme. */
  lemma ToggleTwice(t: Theme)
    ensures Toggled(Toggled(t)) == t
  {
  }

  // ---------------------------------------------------------------------
  // Scene replacement

  /** The scenes with every scene whose id is `id` replaced by `scene`. */
  function ReplaceScene(scenes: seq<Scene>, id: string, scene: Scene): (r: seq<Scene>)
    ensures |r| == |scenes|
    ensures forall i :: 0 <= i < |r| && scenes[i].id == id ==> r[i] == scene
    ensures forall i :: 0 <= i < |r| && scenes[i].id != id ==> r[i] == scenes[i]
  {
    if scenes == [] then []
    else [if scenes[0].id == id then scene else scenes[0]] + ReplaceScene(scenes[1..], id, scene)
  }

  /** The moodboard after a scene update: none stays none; otherwise the
      matching scenes are replaced, order, title and prompt are kept, and
      the moodboard is marked dirty whatever the new scene is. */
  function UpdateScenes(m: Option<Moodboard>, id: string, scene: Scene): (r: Option<Moodboard>)
    ensures r.None? <==> m.None?
    ensures m.Some? ==>
      && r.value.isDirty == Some(true)
      && r.value.title == m.value.title
      && r.value.final_prompt == m.value.final_prompt
      && r.value.scenes == ReplaceScene(m.value.scenes, id, scene)
  {
    match m
    case None => None
    case Some(b) => Some(b.(isDirty := Some(true), scenes := ReplaceScene(b.scenes, id, scene)))
  }

  /** A second update of the same scene overwrites the first. */
  lemma UpdateScenesOverwrite(m: Option<Moodboard>, id: string, first: Scene, second: Scene)
    requires first.id == id
    ensures UpdateScenes(UpdateScenes(m, id, first), id, second) == UpdateScenes(m, id, second)
  {
    if m.Some? {
      var once := ReplaceScene(m.value.scenes, id, first);
      assert ReplaceScene(once, id, second) == ReplaceScene(m.value.scenes, id, second);
    }
  }

  /** Updating a scene with itself changes only the dirty flag. */
  lemma UpdateWithSameScene(m: Moodboard, i: nat)
    requires i < |m.scenes|
    requires forall j :: 0 <= j < |m.scenes| && j != i ==> m.scenes[j].id != m.scenes[i].id
    ensures UpdateScenes(Some(m), m.scenes[i].id, m.scenes[i]) == Some(m.(isDirty := Some(true)))
  {
    assert ReplaceScene(m.scenes, m.scenes[i].id, m.scenes[i]) == m.scenes;
  }

  /** The index of the first scene with that id, or -1. */
  function FindIndex(scenes: seq<Scene>, id: string): (r: int)
    ensures -1 <= r < |scenes|
    ensures r >= 0 ==> scenes[r].id == id
    ensures forall j :: 0 <= j < |scenes| && (r < 0 || j < r) ==> scenes[j].id != id
  {
    if scenes == [] then -1
    else if scenes[0].id == id then 0
    else
      var r := FindIndex(scenes[1..], id);
      if r < 0 then -1 else r + 1
  }

  /** `scenes.find(s => s.id === id)`: the first scene with that id. */
  function FindScene(scenes: seq<Scene>, id: string): (r: Option<Scene>)
    ensures r.None? <==> forall i :: 0 <= i < |scenes| ==> scenes[i].id != id
    ensures r.Some? ==> r.value.id == id
    ensures r.Some? ==> exists i :: 0 <= i < |scenes| && scenes[i] == r.value
                                    && forall j :: 0 <= j < i ==> scenes[j].id != id
  {
    var i := FindIndex(scenes, id);
    if i < 0 then None else Some(scenes[i])
  }

  // ---------------------------------------------------------------------
  // Thumbnails after a regeneration

  /** The thumbnail URL written once the image call has settled. */
  function ThumbnailAfter(image: Result<string, GeminiService.Thrown>): string {
    if image.Ok? then image.value else ErrorMarker
  }

  /** While the image is pending the card shows the spinner; once it has
      settled it shows the new image or, when the call failed, the failure
      panel. */
  lemma RegenerationDisplay(prompt: string, service: GeminiService.ImageRequest -> GeminiService.ImageReply)
    ensures SceneCard.ThumbnailDisplay(Some(LoadingMarker)) == SceneCard.ShowSpinner
    ensures var image := GeminiService.GenerateSingleImage(prompt, None, service);
      SceneCard.ThumbnailDisplay(Some(ThumbnailAfter(image)))
      == if image.Ok? then SceneCard.ShowImage(image.value) else SceneCard.ShowFailure
  {
    var image := GeminiService.GenerateSingleImage(prompt, None, service);
    if image.Ok? {
      GeminiService.ImageUrlIsNotAMarker(prompt, None, service);
    }
  }

  // ---------------------------------------------------------------------
  // Export

  /** The moodboard as exported: every field but the dirty flag. */
  datatype ExportedMoodboard = ExportedMoodboard(title: string, scenes: seq<Scene>, final_prompt: string)

  function StripDirty(m: Moodboard): (r: ExportedMoodboard)
    ensures r.title == m.title && r.scenes == m.scenes && r.final_prompt == m.final_prompt
  {
    ExportedMoodboard(m.title, m.scenes, m.final_prompt)
  }

  /** Two moodboards export alike exactly when they differ at most in the
      dirty flag. */
  lemma StripDirtyForgetsOnlyDirty(m1: Moodboard, m2: Moodboard)
    ensures StripDirty(m1) == StripDirty(m2) <==> m1.(isDirty := m2.isDirty) == m2
  {
  }

  /** `replace(/\s+/g, '_').toLowerCase()`: the base of both export file names. */
  function Slug(title: string): (r: string)
    ensures |r| <= |title|
    ensures NoWhitespace(r)
    ensures forall i :: 0 <= i < |r| ==> !('A' <= r[i] <= 'Z')
    ensures NoWhitespace(title) ==> r == ToLower(title)
  {
    ToLower(ReplaceWhitespaceRuns(title, '_'))
  }

  /** The slug of a slug is the slug itself. */
  lemma SlugIdempotent(title: string)
    ensures Slug(Slug(title)) == Slug(title)
  {
    var s := Slug(title);
    assert ToLower(s) == s;
  }

  /** Two words separated by any run of white space become the lower-cased
      words joined by one underscore. */
  lemma {:induction false} SlugOfTwoWords(w1: string, run: string, w2: string)
    requires NoWhitespace(w1) && NoWhitespace(w2)
    requires run != [] && AllWhitespace(run)
    ensures Slug(w1 + run + w2) == ToLower(w1) + "_" + ToLower(w2)
  {
    var title := w1 + run + w2;
    assert title == w1 + (run + w2);
    ReplaceAfterWord(w1, run + w2, '_');
    assert w2 == [] || !IsWhitespace(w2[0]);
    WhitespaceRunBecomesOneFill(run, w2, '_');
    var replaced := w1 + ("_" + w2);
    assert ReplaceWhitespaceRuns(title, '_') == replaced;
    ToLowerAppend(w1, "_" + w2);
    ToLowerAppend("_", w2);
    assert ToLower("_") == "_";
    assert ToLower(w1) + ("_" + ToLower(w2)) == ToLower(w1) + "_" + ToLower(w2);
  }

  function JsonFileName(title: string): string {
    Slug(title) + ".json"
  }

  function PdfFileName(title: string): string {
    Slug(title) + ".pdf"
  }

  /** The two file names share their base: two titles give the same JSON
      name exactly when they give the same PDF name, exactly when their
      slugs agree. */
  lemma FileNamesShareBase(t1: string, t2: string)
    ensures JsonFileName(t1) == JsonFileName(t2) <==> Slug(t1) == Slug(t2)
    ensures PdfFileName(t1) == PdfFileName(t2) <==> Slug(t1) == Slug(t2)
  {
    if JsonFileName(t1) == JsonFileName(t2) {
      assert Slug(t1) == JsonFileName(t1)[..|JsonFileName(t1)| - 5];
      assert Slug(t2) == JsonFileName(t2)[..|JsonFileName(t2)| - 5];
    }
    if PdfFileName(t1) == PdfFileName(t2) {
      assert Slug(t1) == PdfFileName(t1)[..|PdfFileName(t1)| - 4];
      assert Slug(t2) == PdfFileName(t2)[..|PdfFileName(t2)| - 4];
    }
  }

  // ---------------------------------------------------------------------
  // PDF pagination

  /** The A4 page size in points. */
  const A4Width: real := 595.28
  const A4Height: real := 841.89

  /** The least integer not below `x`. */
  function Ceil(x: real): (r: int)
    ensures r as real >= x && (r - 1) as real < x
  {
    -((-x).Floor)
  }

  /** `max(1, ceil(imgHeight / pdfHeight))`: one page at least, enough pages
      to hold the image, and no page more than needed. */
  function PageCount(imgHeight: real, pdfHeight: real): (r: nat)
    requires pdfHeight > 0.0
    ensures r >= 1
    ensures r as real * pdfHeight >= imgHeight
    ensures r > 1 ==> (r - 1) as real * pdfHeight < imgHeight
  {
    if imgHeight <= pdfHeight then 1
    else
      var c := Ceil(imgHeight / pdfHeight);
      ScaleLe(imgHeight / pdfHeight, c as real, pdfHeight);
      ScaleLt((c - 1) as real, imgHeight / pdfHeight, pdfHeight);
      c
  }

  lemma ScaleLe(x: real, y: real, k: real)
    requires k > 0.0 && x <= y
    ensures x * k <= y * k
  {
  }

  lemma ScaleLt(x: real, y: real, k: real)
    requires k > 0.0 && x < y
    ensures x * k < y * k
  {
  }

  /** The page loop: the vertical offset at which each page places the
      image, page k (from 0) at `-pdfHeight * k`, for exactly `PageCount`
      pages. */
  method Paginate(imgHeight: real, pdfHeight: real) returns (offsets: seq<real>)
    requires pdfHeight > 0.0
    ensures |offsets| == PageCount(imgHeight, pdfHeight)
    ensures forall k :: 0 <= k < |offsets| ==> offsets[k] == -pdfHeight * k as real
  {
    var pages := PageCount(imgHeight, pdfHeight);
    var heightLeft := imgHeight;
    var position := 0.0;
    var page: nat := 1;
    offsets := [position];
    heightLeft := heightLeft - pdfHeight;
    while heightLeft > 0.0
      invariant heightLeft == imgHeight - pdfHeight * page as real
      invariant 1 <= page <= pages
      invariant |offsets| == page
      invariant forall k :: 0 <= k < page ==> offsets[k] == -pdfHeight * k as real
      decreases pages - page
    {
      if page == pages {
        assert false;
      }
      position := -pdfHeight * page as real;
      offsets := offsets + [position];
      heightLeft := heightLeft - pdfHeight;
      page := page + 1;
    }
    if page < pages {
      ScaleLe(page as real, (pages - 1) as real, pdfHeight);
      assert false;
    }
  }

  /** A canvas size in pixels; html2canvas never yields a zero width for
      the rendered content. */
  type Width = n: nat | n > 0 witness 1
  datatype Canvas = Canvas(width: Width, height: nat)

  /** The saved PDF: its file name, the image height on the page and the
      image offset of each page. */
  datatype PdfDocument = PdfDocument(name: string, imgHeight: real, offsets: seq<real>)

  /** The image height once its width is scaled to the page width. */
  function ImageHeight(canvas: Canvas): (r: real)
    ensures r >= 0.0
    ensures r * (canvas.width as real) == canvas.height as real * A4Width
  {
    canvas.height as real * (A4Width / canvas.width as real)
  }

  // ---------------------------------------------------------------------
  // The page state

  const DefaultStory: string := "A sleepy teen wakes up late, rushes out, trips on skateboard, comedic beat."
  const BlankStoryMessage: string := "Please enter a story idea."
  const PromptUpdateFailureMessage: string := "Failed to update the final prompt."
  const PdfFailureMessage: string := "Failed to generate PDF. Please try again."

  class AppState {
    var storyInput: string
    var videoLength: VideoLength
    var stylePreset: StylePreset
    var moodboard: Option<Moodboard>
    var isLoading: bool
    var isUpdating: bool
    var error: Option<string>
    var theme: Theme

    /** The state on first render, the theme read from storage. */
    constructor (storedTheme: Option<string>)
      ensures storyInput == DefaultStory && videoLength == Len16s && stylePreset == Cinematic
      ensures moodboard == None && !isLoading && !isUpdating && error == None
      ensures theme == InitialTheme(storedTheme)
    {
      storyInput := DefaultStory;
      videoLength := Len16s;
      stylePreset := Cinematic;
      moodboard := None;
      isLoading := false;
      isUpdating := false;
      error := None;
      theme := InitialTheme(storedTheme);
    }

    /** The panel view the current state renders. */
    function View(): MoodboardPanel.PanelView
      reads this
    {
      MoodboardPanel.SelectView(isLoading, error, moodboard)
    }

    method ToggleTheme()
      modifies this`theme
      ensures theme == Toggled(old(theme))
    {
      theme := Toggled(theme);
    }

    /** Generation. A blank story only sets the error. Otherwise the panel
        shows the skeleton while the service is awaited (the `busy` view),
        then the result marked clean, or the error with no moodboard. */
    method HandleGenerate(service: string -> GeminiService.ContentReply)
      returns (ghost busy: MoodboardPanel.PanelView)
      modifies this`moodboard, this`isLoading, this`error
      ensures Trim(storyInput) == "" ==>
        error == Some(BlankStoryMessage) && moodboard == old(moodboard) && isLoading == old(isLoading)
      ensures Trim(storyInput) != "" ==>
        var r := GeminiService.GenerateMoodboard(storyInput, videoLength, stylePreset, None, service);
        && busy == MoodboardPanel.Skeleton
        && !isLoading
        && (r.Ok? ==> moodboard == Some(r.value.(isDirty := Some(false))) && error == None)
        && (r.Err? ==> moodboard == None && error == Some(r.error))
    {
      busy := View();
      if Trim(storyInput) == "" {
        error := Some(BlankStoryMessage);
        return;
      }
      isLoading := true;
      error := None;
      moodboard := None;
      busy := View();
      var r := GeminiService.GenerateMoodboard(storyInput, videoLength, stylePreset, None, service);
      match r {
        case Ok(result) =>
          moodboard := Some(result.(isDirty := Some(false)));
        case Err(message) =>
          error := Some(message);
      }
      isLoading := false;
    }

    method HandleSceneUpdate(sceneId: string, updatedScene: Scene)
      modifies this`moodboard
      ensures moodboard == UpdateScenes(old(moodboard), sceneId, updatedScene)
    {
      moodboard := UpdateScenes(moodboard, sceneId, updatedScene);
    }

    /** Image regeneration: nothing without a moodboard or a scene with that
        id. Otherwise the scene taken before the call is written back twice
        through the scene update: first with the loading marker (the
        `pending` moodboard), then with the new image or the error marker. */
    method HandleRegenerateImage(sceneId: string, service: GeminiService.ImageRequest -> GeminiService.ImageReply)
      returns (ghost pending: Option<Moodboard>)
      modifies this`moodboard
      ensures old(moodboard).None? ==> moodboard == old(moodboard)
      ensures old(moodboard).Some? && FindScene(old(moodboard).value.scenes, sceneId).None? ==>
        moodboard == old(moodboard)
      ensures old(moodboard).Some? && FindScene(old(moodboard).value.scenes, sceneId).Some? ==>
        var snapshot := FindScene(old(moodboard).value.scenes, sceneId).value;
        var image := GeminiService.GenerateSingleImage(snapshot.thumbnail_prompt, None, service);
        && pending == UpdateScenes(old(moodboard), sceneId, snapshot.(thumbnail_url := Some(LoadingMarker)))
        && moodboard == UpdateScenes(old(moodboard), sceneId, snapshot.(thumbnail_url := Some(ThumbnailAfter(image))))
    {
      pending := moodboard;
      if moodboard.None? {
        return;
      }
      var found := FindScene(moodboard.value.scenes, sceneId);
      if found.None? {
        return;
      }
      var snapshot := found.value;
      ghost var before := moodboard;
      var loading := snapshot.(thumbnail_url := Some(LoadingMarker));
      HandleSceneUpdate(sceneId, loading);
      pending := moodboard;
      var image := GeminiService.GenerateSingleImage(snapshot.thumbnail_prompt, None, service);
      var settled := snapshot.(thumbnail_url := Some(ThumbnailAfter(image)));
      HandleSceneUpdate(sceneId, settled);
      UpdateScenesOverwrite(before, sceneId, loading, settled);
    }

    /** Prompt regeneration: nothing without a moodboard. Otherwise, on
        success the new prompt is installed and the moodboard marked clean,
        title and scenes kept; on failure the moodboard is kept and the
        fixed message shown. `isUpdating` is set while the service is
        awaited and cleared afterwards. */
    method HandleUpdatePrompt(service: GeminiService.PromptPayload -> GeminiService.TextReply)
      returns (ghost busy: bool)
      modifies this`moodboard, this`error, this`isUpdating
      ensures old(moodboard).None? ==>
        moodboard == old(moodboard) && error == old(error) && isUpdating == old(isUpdating)
      ensures old(moodboard).Some? ==>
        var r := GeminiService.RegenerateFinalPrompt(old(moodboard).value, service);
        && busy && !isUpdating
        && (r.Ok? ==> moodboard == Some(old(moodboard).value.(final_prompt := r.value, isDirty := Some(false)))
                      && error == old(error))
        && (r.Err? ==> moodboard == old(moodboard) && error == Some(PromptUpdateFailureMessage))
    {
      busy := false;
      if moodboard.None? {
        return;
      }
      var board := moodboard.value;
      isUpdating := true;
      busy := isUpdating;
      var r := GeminiService.RegenerateFinalPrompt(board, service);
      if r.Ok? {
        moodboard := Some(board.(final_prompt := r.value, isDirty := Some(false)));
      } else {
        error := Some(PromptUpdateFailureMessage);
      }
      isUpdating := false;
    }

    /** JSON export: nothing without a moodboard; otherwise the file name
        from the title and every field but the dirty flag. */
    method HandleExportJson() returns (file: Option<(string, ExportedMoodboard)>)
      ensures file.None? <==> moodboard.None?
      ensures file.Some? ==>
        && file.value.0 == JsonFileName(moodboard.value.title)
        && file.value.1 == StripDirty(moodboard.value)
    {
      if moodboard.None? {
        return None;
      }
      file := Some((JsonFileName(moodboard.value.title), StripDirty(moodboard.value)));
    }

    /** PDF export. Nothing happens unless the content view is on the page
        (the element the canvas is taken from exists only then). Otherwise
        the error is cleared and the page loading, and the rendered canvas
        (or the failure to render, `None`) decides: a document named after
        the title and split into A4 pages, or the failure message. Loading
        is cleared either way. */
    method HandleExportPdf(render: Option<Canvas>) returns (saved: Option<PdfDocument>)
      modifies this`isLoading, this`error
      ensures !old(MoodboardPanel.ContentShown(isLoading, error, moodboard)) ==>
        saved == None && isLoading == old(isLoading) && error == old(error)
      ensures old(MoodboardPanel.ContentShown(isLoading, error, moodboard)) ==> !isLoading
      ensures old(MoodboardPanel.ContentShown(isLoading, error, moodboard)) && render.None? ==> saved == None && error == Some(PdfFailureMessage)
      ensures old(MoodboardPanel.ContentShown(isLoading, error, moodboard)) && render.Some? ==>
        && error == None
        && saved.Some?
        && saved.value.name == PdfFileName(moodboard.value.title)
        && saved.value.imgHeight == ImageHeight(render.value)
        && |saved.value.offsets| == PageCount(ImageHeight(render.value), A4Height)
        && forall k :: 0 <= k < |saved.value.offsets| ==> saved.value.offsets[k] == -A4Height * k as real
    {
      if moodboard.None? {
        return None;
      }
      if !MoodboardPanel.ContentShown(isLoading, error, moodboard) {
        return None;
      }
      isLoading := true;
      error := None;
      match render {
        case None =>
          error := Some(PdfFailureMessage);
          isLoading := false;
          saved := None;
        case Some(canvas) =>
          var imgHeight := ImageHeight(canvas);
          var offsets := Paginate(imgHeight, A4Height);
          saved := Some(PdfDocument(PdfFileName(moodboard.value.title), imgHeight, offsets));
          isLoading := false;
      }
    }
  }
}
