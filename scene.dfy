/**
 * The editor's scene: the fabric canvas it draws on, the React state that
 * holds that canvas and the pending caption, the effect that (re)builds the
 * canvas for the selected template, the image-load callback, and `addText`.
 */
module Scene {
  import opened Wrappers
  import opened Layout
  import opened Text

  const CanvasWidth := 400
  const CanvasHeight := 400
  const CanvasColour := "grey"

  /** A caption, with the properties `addText` gives it. */
  datatype Textbox = Textbox(text: string, left: int, top: int, width: int, fontSize: int,
                             fill: string, stroke: string, strokeWidth: int, textAlign: string)

  /** The natural size of a decoded template image. */
  datatype ImageSize = ImageSize(width: nat, height: nat)

  /** The template image installed as the canvas background, and where it is drawn. */
  datatype BackgroundImage = BackgroundImage(src: string, size: ImageSize, placement: Placement)

  /** A fabric canvas: its fixed size and colour, its objects in paint order, the active one, the background. */
  class Canvas {
    const width: int
    const height: int
    const backgroundColor: string
    var objects: seq<Textbox>
    var active: Option<nat>
    var backgroundImage: Option<BackgroundImage>
    var disposed: bool

    /** The size the editor gives every canvas, and an active object that exists. */
    ghost predicate Valid()
      reads this
    {
      width == CanvasWidth && height == CanvasHeight &&
      (active.Some? ==> active.value < |objects|)
    }

    /** `new fabric.Canvas(el, {height: 400, width: 400, backgroundColor: "grey"})`. */
    constructor ()
      ensures Valid()
      ensures backgroundColor == CanvasColour
      ensures objects == [] && active == None && backgroundImage == None && !disposed
    {
      width, height, backgroundColor := CanvasWidth, CanvasHeight, CanvasColour;
      objects, active, backgroundImage, disposed := [], None, None, false;
    }

    /** `canvas.add(obj)`: the object is painted last, on top of all others. */
    method Add(obj: Textbox)
      requires Valid()
      modifies this
      ensures Valid()
      ensures objects == old(objects) + [obj]
      ensures active == old(active) && backgroundImage == old(backgroundImage) && disposed == old(disposed)
    {
      objects := objects + [obj];
    }

    /** `canvas.setActiveObject(obj)`, with the object given by its position in paint order. */
    method SetActiveObject(i: nat)
      requires Valid() && i < |objects|
      modifies this
      ensures Valid()
      ensures active == Some(i)
      ensures objects == old(objects) && backgroundImage == old(backgroundImage) && disposed == old(disposed)
    {
      active := Some(i);
    }

    /** `canvas.backgroundImage = img`. */
    method SetBackgroundImage(img: BackgroundImage)
      requires Valid()
      modifies this
      ensures Valid()
      ensures backgroundImage == Some(img)
      ensures objects == old(objects) && active == old(active) && disposed == old(disposed)
    {
      backgroundImage := Some(img);
    }

    /** `canvas.dispose()`: the canvas lets go of its objects, its selection and its background. */
    method Dispose()
      requires Valid()
      modifies this
      ensures Valid()
      ensures disposed && objects == [] && active == None && backgroundImage == None
    {
      objects, active, backgroundImage, disposed := [], None, None, true;
    }
  }

  /**
   * The load the effect starts: `fabric.Image.fromURL(src)`, whose callback
   * holds on to the canvas that effect run created.
   */
  datatype PendingLoad = PendingLoad(target: Canvas, src: string)

  /**
   * The `.then` callback of a load: when an image arrived, scale it to fit the
   * captured canvas, centre it and install it as that canvas's background.
   * It touches nothing but the canvas it captured, so a load that completes
   * after a newer effect run cannot change the newer canvas. The `.catch`
   * callback only logs, so a failed load leaves the canvas as it was.
   */
  method OnImageLoaded(load: PendingLoad, img: Option<ImageSize>)
    requires load.target.Valid()
    requires img.Some? ==> img.value.width > 0 && img.value.height > 0
    modifies load.target
    ensures load.target.Valid()
    ensures load.target.backgroundImage ==
            if img.Some? then Some(BackgroundImage(load.src, img.value, Fit(img.value)))
            else old(load.target.backgroundImage)
    ensures load.target.objects == old(load.target.objects)
    ensures load.target.active == old(load.target.active)
    ensures load.target.disposed == old(load.target.disposed)
  {
    if img.Some? {
      var canvas := load.target;
      var placement := FitAndCentre(canvas.width as real, canvas.height as real,
                                    img.value.width as real, img.value.height as real);
      canvas.SetBackgroundImage(BackgroundImage(load.src, img.value, placement));
    }
  }

  /** Where an image of the given size is drawn on the editor's 400 x 400 canvas. */
  function Fit(size: ImageSize): Placement
    requires size.width > 0 && size.height > 0
  {
    FitAndCentre(CanvasWidth as real, CanvasHeight as real, size.width as real, size.height as real)
  }

  /** The caption `addText` creates for the text `s`. */
  function NewTextbox(s: string): Textbox
  {
    Textbox(s, 50, 50, 300, 24, "white", "black", 1, "center")
  }

  /** The editor component's state. */
  class Editor {
    var canvas: Canvas?   // React state `canvas`
    var text: string      // React state `text`, the caption being typed
    var cleanup: Canvas?  // the canvas the cleanup of the last effect run disposes

    /** The canvas in state is well formed, and the registered cleanup disposes that canvas or nothing. */
    ghost predicate Valid()
      reads this, canvas
    {
      (canvas != null ==> canvas.Valid()) &&
      (cleanup == null || cleanup == canvas)
    }

    /** First render: no canvas yet and an empty input. */
    constructor ()
      ensures Valid()
      ensures canvas == null && text == "" && cleanup == null
    {
      canvas, text, cleanup := null, "", null;
    }

    /** The input's `onChange`: `setText(value)`. */
    method SetText(value: string)
      requires Valid()
      modifies this
      ensures Valid()
      ensures text == value && canvas == old(canvas) && cleanup == old(cleanup)
    {
      text := value;
    }

    /**
     * The effect keyed on the selected template, run on mount and whenever the
     * template changes. React first runs the cleanup of the previous run, which
     * disposes that run's canvas. Without a mounted `<canvas>` element the
     * effect returns at once and registers no cleanup. Otherwise it creates a
     * fresh grey 400 x 400 canvas, makes it the editor's canvas, starts loading
     * the template image for it, and registers that canvas's disposal.
     */
    method RunEffect(mounted: bool, template: string) returns (load: Option<PendingLoad>)
      requires Valid()
      modifies this, cleanup
      ensures Valid()
      ensures text == old(text)
      ensures old(cleanup) != null ==>
                old(cleanup).Valid() && old(cleanup).disposed && old(cleanup).objects == [] && old(cleanup).backgroundImage == None
      ensures !mounted ==> load == None && cleanup == null && canvas == old(canvas)
      ensures mounted ==>
                fresh(canvas) && cleanup == canvas &&
                load == Some(PendingLoad(canvas, template)) &&
                canvas.backgroundColor == CanvasColour &&
                canvas.objects == [] && canvas.active == None &&
                canvas.backgroundImage == None && !canvas.disposed
    {
      if cleanup != null {
        cleanup.Dispose();
      }
      if !mounted {
        cleanup := null;
        return None;
      }
      var initCanvas := new Canvas();
      canvas := initCanvas;
      cleanup := initCanvas;
      load := Some(PendingLoad(initCanvas, template));
    }

    /** Unmounting the editor runs the registered cleanup. */
    method Unmount()
      requires Valid()
      modifies this, cleanup
      ensures Valid()
      ensures old(cleanup) != null ==>
                old(cleanup).Valid() && old(cleanup).disposed && old(cleanup).objects == [] && old(cleanup).backgroundImage == None
      ensures cleanup == null && canvas == old(canvas) && text == old(text)
    {
      if cleanup != null {
        cleanup.Dispose();
      }
      cleanup := null;
    }

    /**
     * `addText`: with a canvas and a caption that is not blank, the caption
     * (untrimmed) is added on top of every other object, becomes the active
     * object, and the input is cleared. Otherwise nothing changes.
     */
    method AddText()
      requires Valid()
      modifies this, canvas
      ensures Valid()
      ensures canvas == old(canvas) && cleanup == old(cleanup)
      ensures old(canvas) != null && Trim(old(text)) != "" ==>
                canvas.objects == old(canvas.objects) + [NewTextbox(old(text))] &&
                canvas.active == Some(|canvas.objects| - 1) &&
                canvas.backgroundImage == old(canvas.backgroundImage) &&
                canvas.disposed == old(canvas.disposed) &&
                text == ""
      ensures old(canvas) == null || Trim(old(text)) == "" ==>
                text == old(text) && (canvas != null ==> unchanged(canvas))
    {
      if canvas != null && Trim(text) != "" {
        var textbox := NewTextbox(text);
        canvas.Add(textbox);
        canvas.SetActiveObject(|canvas.objects| - 1);
        text := "";
      }
    }
  }

  /**
   * The template changes while the first template's image is still loading,
   * and the first load completes last. The editor shows the second template,
   * and the late image lands only on the first, disposed, canvas.
   */
  method SupersededLoad(first: string, second: string, firstSize: ImageSize, secondSize: ImageSize)
    returns (shown: Option<BackgroundImage>, staleCanvasDisposed: bool)
    requires firstSize.width > 0 && firstSize.height > 0
    requires secondSize.width > 0 && secondSize.height > 0
    ensures shown == Some(BackgroundImage(second, secondSize, Fit(secondSize)))
    ensures staleCanvasDisposed
  {
    var editor := new Editor();
    var firstLoad := editor.RunEffect(true, first);
    var stale := firstLoad.value.target;
    var secondLoad := editor.RunEffect(true, second);
    OnImageLoaded(secondLoad.value, Some(secondSize));
    OnImageLoaded(firstLoad.value, Some(firstSize));
    shown := editor.canvas.backgroundImage;
    staleCanvasDisposed := stale.disposed;
  }

  /**
   * The template image fails to load; the canvas keeps its grey fill with no
   * background, and captions can still be added to it.
   */
  method FailedLoadStillEditable(template: string, caption: string)
    returns (background: Option<BackgroundImage>, objects: seq<Textbox>, input: string)
    requires Trim(caption) != ""
    ensures background == None
    ensures objects == [NewTextbox(caption)]
    ensures input == ""
  {
    var editor := new Editor();
    var load := editor.RunEffect(true, template);
    editor.SetText(caption);
    editor.AddText();
    background, objects, input := editor.canvas.backgroundImage, editor.canvas.objects, editor.text;
  }

  /** A blank caption is not added, and stays in the input. */
  method BlankCaptionIgnored(template: string, caption: string)
    returns (objects: seq<Textbox>, input: string)
    requires AllWhitespace(caption)
    ensures objects == [] && input == caption
  {
    TrimEmptyIffBlank(caption);
    var editor := new Editor();
    var load := editor.RunEffect(true, template);
    editor.SetText(caption);
    editor.AddText();
    objects, input := editor.canvas.objects, editor.text;
  }

  /** Captions stack in the order they are added; the last one added is active. */
  method CaptionsStack(template: string, first: string, second: string)
    returns (objects: seq<Textbox>, active: Option<nat>)
    requires Trim(first) != "" && Trim(second) != ""
    ensures objects == [NewTextbox(first), NewTextbox(second)]
    ensures active == Some(1)
  {
    var editor := new Editor();
    var load := editor.RunEffect(true, template);
    var canvas := editor.canvas;
    editor.SetText(first);
    assert editor.canvas == canvas && canvas.objects == [] && editor.Valid();
    editor.AddText();
    assert editor.canvas == canvas && canvas.objects == [NewTextbox(first)];
    editor.SetText(second);
    assert editor.canvas == canvas && editor.text == second && editor.Valid();
    editor.AddText();
    assert canvas.objects == [NewTextbox(first)] + [NewTextbox(second)];
    objects, active := canvas.objects, canvas.active;
  }
}
