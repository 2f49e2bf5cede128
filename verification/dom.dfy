/** The part of the browser DOM the canvas tiles use: creating a blank
    canvas of a given size. A canvas is a value carrying an identity `id`;
    the document hands out ids in creation order, so a canvas created later
    is never the same object as one created earlier. */
module Dom {

  /** A canvas element: its identity, its pixel size and its pixels,
      row-major, `width * height` of them once painted correctly. */
  datatype Canvas = Canvas(id: nat, width: nat, height: nat, pixels: seq<int>)

  /** The document: `created` canvases exist, with ids `0 .. created - 1`. */
  datatype Document = Document(created: nat)

  /** Pixel value of a freshly created canvas. */
  const Transparent: int := 0

  /** Creates a blank `width` by `height` canvas that is a new object:
      its id is not the id of any canvas created before. */
  function CreateCanvas(doc: Document, width: nat, height: nat): (r: (Canvas, Document))
    ensures r.0.id >= doc.created && r.1.created > r.0.id
    ensures r.0.width == width && r.0.height == height
    ensures |r.0.pixels| == width * height
    ensures forall i :: 0 <= i < |r.0.pixels| ==> r.0.pixels[i] == Transparent
  {
    (Canvas(doc.created, width, height, seq(width * height, _ => Transparent)),
     Document(doc.created + 1))
  }
}
