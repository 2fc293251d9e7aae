/** The decisions the PDF routine makes: which canvas each queued image is
    drawn on, how many pages there are and which image each carries, and
    the name of the saved file. Drawing, encoding and page layout belong to
    the browser and the PDF library and are not modelled. */
module Pdf {
  import opened Images

  /** The base name used when the name field is empty. */
  const DefaultName: string := "meu-pdf"

  datatype Size = Size(width: nat, height: nat)

  function Transposed(z: Size): Size
  {
    Size(z.height, z.width)
  }

  /** The canvas an image is drawn on before it is placed: a quarter or three
      quarters of a turn stand it on its side, any other angle keeps it upright. */
  function CanvasSize(image: Size, angle: nat): (c: Size)
    ensures IsQuarterTurn(angle) ==> c == (if angle % 180 == 90 then Transposed(image) else image)
    ensures !IsQuarterTurn(angle) ==> c == image
    ensures c.width * c.height == image.width * image.height
  {
    if angle == 90 || angle == 270 then Size(image.height, image.width) else image
  }

  /** A fresh record pressed `n` times is drawn on its side exactly when `n` is odd. */
  lemma {:induction false} CanvasAfterTurns(image: Size, n: nat)
    ensures CanvasSize(image, RotateTimes(0, n)) == if n % 2 == 1 then Transposed(image) else image
    ensures IsQuarterTurn(RotateTimes(0, n))
  {
    if n > 0 {
      CanvasAfterTurns(image, n - 1);
    }
  }

  /** One placed image: the preview handle it came from, the angle it was
      turned by and the size of the canvas it was drawn on. */
  datatype Page = Page(url: Url, angle: nat, size: Size)

  /** The generated document: for each page the images placed on it, and the
      name it is saved under. */
  datatype Document = Document(pages: seq<seq<Page>>, fileName: string)

  /** What one queued record turns into once it is turned and drawn: the
      image loaded from the record's handle, drawn at the record's angle on a
      canvas of the decoded size, stood on its side for 90 and 270 degrees. */
  function Render(img: ImageData): (p: Page)
    ensures p.url == img.url && p.angle == img.rotated
    ensures var decoded := Size(img.file.width, img.file.height);
      IsQuarterTurn(img.rotated) ==>
        p.size == if img.rotated % 180 == 90 then Transposed(decoded) else decoded
  {
    var angle := img.rotated;
    Page(img.url, angle, CanvasSize(Size(img.file.width, img.file.height), angle))
  }

  /** The pages for a queue, built up as the routine goes through it: each
      record in turn gets a page of its own, at the end, with its image alone. */
  function Pages(queue: seq<ImageData>): (r: seq<seq<Page>>)
    ensures |r| == |queue|
    ensures forall i :: 0 <= i < |queue| ==> r[i] == [Render(queue[i])]
  {
    if queue == [] then []
    else Pages(queue[..|queue| - 1]) + [[Render(queue[|queue| - 1])]]
  }

  /** The saved file name: the name field followed by ".pdf", or the default
      name when the field is empty. A name that is only spaces is kept. */
  function FileName(pdfName: string): (name: string)
    ensures |name| >= 4 && name[|name| - 4..] == ".pdf"
    ensures pdfName != "" ==> name[..|name| - 4] == pdfName
    ensures pdfName == "" ==> name == "meu-pdf.pdf"
  {
    (if pdfName == "" then DefaultName else pdfName) + ".pdf"
  }

  /** The whole routine as a value: nothing for an empty queue, otherwise one
      page per queued record in queue order, saved under the computed name. */
  function Assemble(queue: seq<ImageData>, pdfName: string): (r: Option<Document>)
    ensures r.None? <==> queue == []
    ensures r.Some? ==> |r.value.pages| == |queue| && r.value.fileName == FileName(pdfName)
    ensures r.Some? ==> forall i :: 0 <= i < |queue| ==> r.value.pages[i] == [Render(queue[i])]
  {
    if queue == [] then None else Some(Document(Pages(queue), FileName(pdfName)))
  }
}
