/**
 * The page's session state and its event handlers: uploading the base image,
 * its decode and fit, adding an overlay to the gallery, selecting one, its
 * decode and cap, and exporting.
 *
 * Each browser callback (a file reader's load, an image's load) is a method
 * of its own whose inputs are what the browser would hand over: the file's
 * data URL, the decoded image's intrinsic size, the measured container.
 */
module Session {
  import opened Wrappers
  import opened Geometry
  import opened Gallery
  import opened Transform
  import opened Export

  class Home {
    /** The base image shown in the preview. */
    var previewImage: Source
    /** Whether the gallery of overlays is offered (it is once a base image has been uploaded). */
    var selection: bool
    /** The id of the selected overlay, if any. */
    var selectionId: Option<int>
    /** The gallery of overlay candidates. */
    var selectionImages: seq<Entry>
    /** The base image's fitted on-screen size; also the export canvas's size. */
    var imageSize: Size
    /** The selected overlay's on-screen size. */
    var selectionImageSize: Size

    /** The container and intrinsic size of the last fit, or `None` while no fit has happened. */
    ghost var lastFit: Option<(Size, Size)>

    ghost predicate Valid()
      reads this
    {
      && Numbered(selectionImages) && |selectionImages| >= |Initial|
      && NonNegative(selectionImageSize) && selectionImageSize.height <= MaxOverlayHeight
      && match lastFit
         case None => imageSize == Zero
         case Some((container, image)) =>
           NonNegative(container) && Positive(image) && imageSize == Letterbox(container, image)
    }

    /** The page's initial state. */
    constructor ()
      ensures Valid()
      ensures previewImage == Bundled("preview") && !selection && selectionId == None
      ensures selectionImages == Initial && imageSize == Zero && selectionImageSize == Zero
      ensures lastFit == None
    {
      previewImage := Bundled("preview");
      selection := false;
      selectionId := None;
      selectionImages := Initial;
      imageSize := Zero;
      selectionImageSize := Zero;
      lastFit := None;
    }

    /** The fitted base image always lies within the container it was fitted to and touches it. */
    lemma FitStaysInContainer()
      requires Valid() && lastFit.Some?
      ensures FitsIn(imageSize, lastFit.value.0)
      ensures imageSize.width == lastFit.value.0.width || imageSize.height == lastFit.value.0.height
      ensures SameAspect(imageSize, lastFit.value.1)
    {
    }

    /**
     * A base image file was chosen and read: `file` is its data URL, or
     * `None` when the picker was dismissed. The preview shows it and the
     * gallery is offered; the size follows once the image has decoded.
     */
    method HandleFileUpload(file: Option<string>)
      requires Valid()
      modifies this
      ensures Valid()
      ensures previewImage == (if file.Some? then Uploaded(file.value) else old(previewImage))
      ensures selection == (file.Some? || old(selection))
      ensures selectionId == old(selectionId) && selectionImages == old(selectionImages)
      ensures imageSize == old(imageSize) && selectionImageSize == old(selectionImageSize)
      ensures lastFit == old(lastFit)
    {
      if file.Some? {
        previewImage := Uploaded(file.value);
        selection := true;
      }
    }

    /**
     * The uploaded base image decoded to `intrinsic`. With the container
     * not yet measured nothing changes; otherwise the image is fitted into
     * the container's client size.
     */
    method OnPreviewLoaded(container: Option<Size>, intrinsic: Size)
      requires Valid() && Positive(intrinsic)
      requires container.Some? ==> NonNegative(container.value)
      modifies this
      ensures Valid()
      ensures container.None? ==> imageSize == old(imageSize) && lastFit == old(lastFit)
      ensures container.Some? ==>
                imageSize == Letterbox(container.value, intrinsic) &&
                lastFit == Some((container.value, intrinsic))
      ensures previewImage == old(previewImage) && selection == old(selection)
      ensures selectionId == old(selectionId) && selectionImages == old(selectionImages)
      ensures selectionImageSize == old(selectionImageSize)
    {
      if container.None? {
        return;
      }
      var containerWidth := container.value.width;
      var containerHeight := container.value.height;

      var aspectRatio := intrinsic.width / intrinsic.height;
      var calculatedWidth := containerWidth;
      var calculatedHeight := containerWidth / aspectRatio;

      if calculatedHeight > containerHeight {
        calculatedHeight := containerHeight;
        calculatedWidth := containerHeight * aspectRatio;
      }

      AspectRatioFitIsLetterbox(container.value, intrinsic);
      imageSize := Size(calculatedWidth, calculatedHeight);
      lastFit := Some((container.value, intrinsic));
    }

    /** An overlay image was added and read: it joins the gallery under the next id. */
    method HandleExtraFileUpload(file: Option<string>)
      requires Valid()
      modifies this
      ensures Valid()
      ensures selectionImages == (if file.Some? then Append(old(selectionImages), file.value) else old(selectionImages))
      ensures previewImage == old(previewImage) && selection == old(selection) && selectionId == old(selectionId)
      ensures imageSize == old(imageSize) && selectionImageSize == old(selectionImageSize)
      ensures lastFit == old(lastFit)
    {
      if file.Some? {
        AppendKeepsNumbered(selectionImages, file.value);
        selectionImages := Append(selectionImages, file.value);
      }
    }

    /**
     * A gallery thumbnail was clicked. The id becomes the selection, and the
     * gallery entry with that id, if there is one, is returned: its image is
     * then decoded and reported to `OnSelectionLoaded`.
     */
    method HandleSelectionClick(id: int) returns (pending: Option<Source>)
      requires Valid()
      modifies this
      ensures Valid()
      ensures selectionId == Some(id)
      ensures pending.Some? <==> 1 <= id <= |selectionImages|
      ensures pending.Some? ==> pending.value == selectionImages[id - 1].src
      ensures previewImage == old(previewImage) && selection == old(selection)
      ensures selectionImages == old(selectionImages)
      ensures imageSize == old(imageSize) && selectionImageSize == old(selectionImageSize)
      ensures lastFit == old(lastFit)
    {
      selectionId := Some(id);
      var selectedImage := FindById(selectionImages, id);
      FindInNumbered(selectionImages, id);
      pending := if selectedImage.Some? then Some(selectedImage.value.src) else None;
    }

    /**
     * A selected overlay decoded to `intrinsic`: it is shown at its capped
     * size. Nothing checks which selection the decode belongs to.
     */
    method OnSelectionLoaded(intrinsic: Size)
      requires Valid() && Positive(intrinsic)
      modifies this
      ensures Valid()
      ensures selectionImageSize == OverlaySize(intrinsic)
      ensures previewImage == old(previewImage) && selection == old(selection)
      ensures selectionId == old(selectionId) && selectionImages == old(selectionImages)
      ensures imageSize == old(imageSize) && lastFit == old(lastFit)
    {
      selectionImageSize := OverlaySize(intrinsic);
    }

    /** The source of the selected overlay: the first gallery entry whose id is the selected one. */
    function SelectedSource(): (r: Option<Source>)
      reads this
      requires Valid()
      ensures r.Some? <==> selectionId.Some? && 1 <= selectionId.value <= |selectionImages|
      ensures r.Some? ==> r.value == selectionImages[selectionId.value - 1].src
    {
      if selectionId.None? then None
      else
        FindInNumbered(selectionImages, selectionId.value);
        match FindById(selectionImages, selectionId.value)
        case None => None
        case Some(e) => Some(e.src)
    }

    /** The URL the export's overlay image is pointed at: `''` when no overlay is selected. */
    function SelectedUrl(): (r: string)
      reads this
      requires Valid()
      ensures SelectedSource().Some? ==> r == Url(SelectedSource().value)
      ensures SelectedSource().None? ==> r == ""
    {
      match SelectedSource()
      case Some(s) => Url(s)
      case None => ""
    }

    /**
     * The overlay is rendered (and so can be dragged) only for a truthy id
     * whose entry has a non-empty URL; a bundled image's URL is never empty.
     */
    predicate OverlayShown()
      reads this
      requires Valid()
    {
      selectionId.Some? && selectionId.value != 0 && SelectedUrl() != ""
    }

    /** Every export draws the overlay that is on screen: nothing is exported while no overlay is shown. */
    lemma ExportNeedsOverlayShown(action: string, canShare: bool, baseLoads: bool, overlayLoads: bool,
                                  dynamicTransform: Option<string>)
      requires Valid()
      ensures ExportOf(Url(previewImage), imageSize, SelectedUrl(), selectionImageSize,
                       dynamicTransform, action, canShare, baseLoads, overlayLoads).Exported?
              ==> OverlayShown()
    {
      if selectionId.Some? && selectionId.value == 0 {
        assert SelectedSource().None?;
      }
    }

    /**
     * Export: whether each image loads and the overlay element's transform
     * are supplied by the browser; `canShare` says whether the platform
     * offers sharing. The state is only read.
     */
    method ProcessImage(action: string, canShare: bool, baseLoads: bool, overlayLoads: bool,
                        dynamicTransform: Option<string>) returns (r: Outcome)
      requires Valid()
      requires dynamicTransform.Some? <==> OverlayShown()
      ensures r == ExportOf(Url(previewImage), imageSize, SelectedUrl(), selectionImageSize,
                            dynamicTransform, action, canShare, baseLoads, overlayLoads)
    {
      if !baseLoads {
        return Stalled;
      }
      var width := CanvasDimension(imageSize.width, DefaultWidth);
      var height := CanvasDimension(imageSize.height, DefaultHeight);
      var selectedImageUrl := SelectedUrl();
      if selectedImageUrl == "" || !overlayLoads {
        return Stalled;
      }
      var base := Draw(Url(previewImage), 0.0, 0.0, imageSize.width, imageSize.height);
      var offset := ReadOffset(dynamicTransform);
      var overlay := Draw(selectedImageUrl, offset.x, offset.y, selectionImageSize.width, selectionImageSize.height);
      var sink: Sink;
      if action == "download" {
        sink := DownloadLink(FileName);
      } else if action == "share" && canShare {
        sink := ShareSheet(FileName, MimeType);
      } else {
        sink := NotSupported;
      }
      r := Exported(Raster(width, height, [base, overlay]), sink);
    }

    /** The download button: whatever is exported goes to a download named `receipt.png`. */
    method DownloadImages(baseLoads: bool, overlayLoads: bool, dynamicTransform: Option<string>)
      returns (r: Outcome)
      requires Valid()
      requires dynamicTransform.Some? <==> OverlayShown()
      ensures r.Exported? <==> baseLoads && overlayLoads && SelectedSource().Some? && Url(SelectedSource().value) != ""
      ensures r.Exported? ==> r.sink == DownloadLink("receipt.png")
    {
      r := ProcessImage("download", false, baseLoads, overlayLoads, dynamicTransform);
    }

    /** The share button: whatever is exported is shared when the platform can share, and reported unsupported otherwise. */
    method ShareImage(canShare: bool, baseLoads: bool, overlayLoads: bool, dynamicTransform: Option<string>)
      returns (r: Outcome)
      requires Valid()
      requires dynamicTransform.Some? <==> OverlayShown()
      ensures r.Exported? <==> baseLoads && overlayLoads && SelectedSource().Some? && Url(SelectedSource().value) != ""
      ensures r.Exported? ==> r.sink == (if canShare then ShareSheet("receipt.png", "image/png") else NotSupported)
    {
      r := ProcessImage("share", canShare, baseLoads, overlayLoads, dynamicTransform);
    }
  }

  /**
   * A whole session: a 1000x500 photo uploaded into a 476x300 container,
   * the first sticker (200x50) selected and dragged to (12, -5), then the
   * download button. Before any overlay is selected the export stalls.
   */
  method ExampleSession() returns (before: Outcome, after: Outcome)
    ensures before == Stalled
    ensures after == Exported(
              Raster(476, 238, [Draw("data:image/png;base64,AAAA", 0.0, 0.0, 476.0, 238.0),
                                Draw("selection1", 12.0, -5.0, 200.0, 50.0)]),
              DownloadLink("receipt.png"))
  {
    var home := new Home();
    home.HandleFileUpload(Some("data:image/png;base64,AAAA"));
    home.OnPreviewLoaded(Some(Size(476.0, 300.0)), Size(1000.0, 500.0));
    assert home.imageSize == Size(476.0, 238.0) by {
      LetterboxLandscapeExample();
    }
    before := home.ProcessImage("download", false, true, true, None);
    var pending := home.HandleSelectionClick(1);
    home.OnSelectionLoaded(Size(200.0, 50.0));
    assert home.SelectedUrl() == "selection1";
    assert home.selectionImageSize == Size(200.0, 50.0);
    assert CanvasDimension(476.0, DefaultWidth) == 476 && CanvasDimension(238.0, DefaultHeight) == 238;
    assert TransformOffset(Some("translateX(12px) translateY(-5px)")) == Point(12.0, -5.0) by {
      OffsetExample();
    }
    after := home.ProcessImage("download", false, true, true, Some("translateX(12px) translateY(-5px)"));
  }
}
