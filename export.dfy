/**
 * Exporting the composite: the base image drawn over the whole canvas, the
 * overlay drawn on top at its drag offset, and the flattened result handed
 * to a download link or to the platform's share facility.
 */
module Export {
  import opened Wrappers
  import opened Geometry
  import opened Transform

  /** The name of the exported file, on both paths. */
  const FileName: string := "receipt.png"

  /** The media type of the shared file. */
  const MimeType: string := "image/png"

  /** Where the flattened image goes. */
  datatype Sink =
    | DownloadLink(fileName: string)                  // a temporary link with `download` set is clicked
    | ShareSheet(fileName: string, mimeType: string)  // the platform's share facility is handed a file
    | NotSupported                                    // "Web Share API not supported" is logged

  /**
   * The action dispatch: `download` always downloads, `share` shares only when
   * the platform offers sharing, anything else is reported as not supported.
   */
  function Dispatch(action: string, canShare: bool): (r: Sink)
    ensures r.DownloadLink? <==> action == "download"
    ensures r.ShareSheet? <==> action == "share" && canShare
    ensures r.NotSupported? <==> action != "download" && !(action == "share" && canShare)
    ensures r.DownloadLink? ==> r.fileName == FileName
    ensures r.ShareSheet? ==> r.fileName == FileName && r.mimeType == MimeType
  {
    if action == "download" then DownloadLink(FileName)
    else if action == "share" && canShare then ShareSheet(FileName, MimeType)
    else NotSupported
  }

  /** One `drawImage` call: the image at `url` scaled into the given rectangle. */
  datatype Draw = Draw(url: string, x: real, y: real, width: real, height: real)

  /** The flattened image: the canvas's pixel size and the draws made on it, in order. */
  datatype Raster = Raster(width: int, height: int, draws: seq<Draw>)

  /** An export either never reaches its draw (an image did not load) or produces a raster and sends it on. */
  datatype Outcome = Stalled | Exported(raster: Raster, sink: Sink)

  /** The size a canvas falls back to when assigned a width or height out of range. */
  const DefaultWidth: nat := 300
  const DefaultHeight: nat := 150

  /**
   * Assigning a non-negative number to `canvas.width` or `canvas.height`:
   * truncated and taken modulo 2^32, and kept only when the result is at
   * most 2^31 - 1; otherwise the dimension becomes its default.
   */
  function CanvasDimension(v: real, fallback: nat): (d: int)
    requires v >= 0.0
    ensures 0 <= d < 0x8000_0000 || d == fallback
    ensures v < 2147483648.0 ==> d as real <= v < d as real + 1.0
    ensures 2147483648.0 <= v < 4294967296.0 ==> d == fallback
  {
    var n := v.Floor % 0x1_0000_0000;
    if n < 0x8000_0000 then n else fallback
  }

  /**
   * What one export produces. The base image must load; the overlay's URL is
   * `''` when no overlay is selected, and an image pointed at `''` never
   * loads, so nothing is exported then.
   */
  function ExportOf(baseUrl: string, displaySize: Size, overlayUrl: string, overlaySize: Size,
                    transform: Option<string>, action: string, canShare: bool,
                    baseLoads: bool, overlayLoads: bool): (r: Outcome)
    requires NonNegative(displaySize)
    ensures r.Exported? <==> baseLoads && overlayUrl != "" && overlayLoads
    ensures r.Exported? ==> r.sink == Dispatch(action, canShare)
    ensures r.Exported? ==>
              r.raster.width == CanvasDimension(displaySize.width, DefaultWidth) &&
              r.raster.height == CanvasDimension(displaySize.height, DefaultHeight)
    ensures r.Exported? ==>
              r.raster.draws ==
                [Draw(baseUrl, 0.0, 0.0, displaySize.width, displaySize.height),
                 Draw(overlayUrl, TransformOffset(transform).x, TransformOffset(transform).y,
                      overlaySize.width, overlaySize.height)]
  {
    if !baseLoads || overlayUrl == "" || !overlayLoads then Stalled
    else
      var offset := TransformOffset(transform);
      Exported(Raster(CanvasDimension(displaySize.width, DefaultWidth), CanvasDimension(displaySize.height, DefaultHeight),
                      [Draw(baseUrl, 0.0, 0.0, displaySize.width, displaySize.height),
                       Draw(overlayUrl, offset.x, offset.y, overlaySize.width, overlaySize.height)]),
               Dispatch(action, canShare))
  }

  /** The base image covers the whole canvas: it is drawn at the origin at the canvas's own size, before the overlay. */
  lemma BaseCoversCanvas(baseUrl: string, displaySize: Size, overlayUrl: string, overlaySize: Size,
                         transform: Option<string>, action: string, canShare: bool)
    requires NonNegative(displaySize) && overlayUrl != ""
    requires displaySize.width < 2147483648.0 && displaySize.height < 2147483648.0
    ensures var r := ExportOf(baseUrl, displaySize, overlayUrl, overlaySize, transform, action, canShare, true, true);
            r.Exported? && |r.raster.draws| == 2
            && r.raster.draws[0].x == 0.0 && r.raster.draws[0].y == 0.0
            && r.raster.width as real <= r.raster.draws[0].width < r.raster.width as real + 1.0
            && r.raster.height as real <= r.raster.draws[0].height < r.raster.height as real + 1.0
  {
  }

  /** A width of three billion pixels is out of range, so the canvas keeps its default width of 300. */
  lemma CanvasFallbackExample()
    ensures CanvasDimension(3000000000.0, DefaultWidth) == 300
    ensures CanvasDimension(2147483647.5, DefaultHeight) == 2147483647
  {
  }
}
