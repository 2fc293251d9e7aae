/** The component's state and its event handlers. Each handler replaces the
    lists it sets with the list the matching transform of ImageLists computes. */
module Component {
  import opened Images
  import opened ImageLists
  import Pdf

  class App {
    /** Imported records not yet queued, in import order. */
    var images: seq<ImageData>
    /** The position picked for the selection buttons; only ever cleared. */
    var selectedIndex: Option<nat>
    /** Records that become the pages of the PDF, in page order. */
    var queue: seq<ImageData>
    /** The text of the file-name field. */
    var pdfName: string
    /** Number of preview handles made so far; the next one gets this number. */
    var nextUrl: nat

    /** Handles in the image list are distinct, every handle held anywhere was
        already made, and every record is at one of the four angles. The two
        lists may share a record: queueing the selection copies one. */
    ghost predicate Valid()
      reads this
    {
      DistinctUrls(images) &&
      UrlsBelow(images, nextUrl) && UrlsBelow(queue, nextUrl) &&
      AllQuarterTurns(images) && AllQuarterTurns(queue)
    }

    constructor ()
      ensures Valid()
      ensures images == [] && queue == [] && selectedIndex == None
      ensures pdfName == Pdf.DefaultName && nextUrl == 0
    {
      images, selectedIndex, queue := [], None, [];
      pdfName, nextUrl := Pdf.DefaultName, 0;
    }

    /** The file chooser's change event: no file list leaves everything as it
        was; otherwise one unrotated record per file, each with a new handle,
        is appended to the image list. */
    method HandleFileChange(files: Option<seq<File>>)
      requires Valid()
      modifies this
      ensures Valid()
      ensures files.None? ==> images == old(images) && nextUrl == old(nextUrl)
      ensures files.Some? ==> images == old(images) + NewImages(files.value, old(nextUrl))
      ensures files.Some? ==> nextUrl == old(nextUrl) + |files.value|
      ensures files.Some? ==> Urls(NewImages(files.value, old(nextUrl))) !! Urls(old(images)) + Urls(old(queue))
      ensures queue == old(queue) && selectedIndex == old(selectedIndex) && pdfName == old(pdfName)
    {
      if files.None? {
        return;
      }
      var newImages := NewImages(files.value, nextUrl);
      ImportKeepsUrlsFresh(images, queue, files.value, nextUrl);
      images := images + newImages;
      nextUrl := nextUrl + |files.value|;
      forall x | x in queue ensures x.url.id < nextUrl { }
    }

    /** The rotate button of entry `idx`. */
    method RotateImage(idx: nat)
      requires Valid()
      modifies this`images
      ensures Valid()
      ensures images == RotateAt(old(images), idx)
    {
      var rotated := RotateAt(images, idx);
      forall x | x in rotated ensures x in images || (x.url == images[idx].url && x.rotated == Rotate(images[idx].rotated) && x.file == images[idx].file) {
        var i :| 0 <= i < |rotated| && rotated[i] == x;
      }
      images := rotated;
    }

    /** The include button of entry `idx`, and a double-click on its thumbnail. */
    method IncludeImage(idx: nat)
      requires Valid() && idx < |images|
      modifies this`images, this`queue
      ensures Valid()
      ensures Store(images, queue) == Include(Store(old(images), old(queue)), idx)
    {
      var r := Include(Store(images, queue), idx);
      RemoveAtKeeps(images, idx, nextUrl);
      assert images[idx] in images;
      images, queue := r.images, r.queue;
    }

    /** Queueing the selected entry: appended with no check for a repeated
        handle, and left in the image list. */
    method AddToQueue()
      requires Valid()
      requires selectedIndex.Some? ==> selectedIndex.value < |images|
      modifies this`queue
      ensures Valid()
      ensures selectedIndex.None? ==> queue == old(queue)
      ensures selectedIndex.Some? ==> queue == old(queue) + [images[selectedIndex.value]]
    {
      if selectedIndex.None? {
        return;
      }
      var selected := images[selectedIndex.value];
      assert selected in images;
      queue := queue + [selected];
    }

    /** The include-all button. */
    method AddAllToQueue()
      requires Valid()
      modifies this`images, this`queue
      ensures Valid()
      ensures Store(images, queue) == IncludeAll(Store(old(images), old(queue)))
    {
      var alreadyInQueue := Urls(queue);
      UrlFilterDistinct(images, alreadyInQueue, true);
      var r := IncludeAll(Store(images, queue));
      images, queue := r.images, r.queue;
    }

    /** Removing the selected entry from the image list and clearing the selection. */
    method RemoveSelectedImage()
      requires Valid()
      modifies this`images, this`selectedIndex
      ensures Valid()
      ensures old(selectedIndex).None? ==> images == old(images) && selectedIndex == None
      ensures old(selectedIndex).Some? ==> images == RemoveAt(old(images), old(selectedIndex).value)
      ensures selectedIndex == None
    {
      if selectedIndex.None? {
        return;
      }
      RemoveAtKeeps(images, selectedIndex.value, nextUrl);
      images := RemoveAt(images, selectedIndex.value);
      selectedIndex := None;
    }

    /** The remove-all button: both lists emptied and the selection cleared. */
    method RemoveAllImages()
      requires Valid()
      modifies this`images, this`queue, this`selectedIndex
      ensures Valid()
      ensures images == [] && queue == [] && selectedIndex == None
    {
      images := [];
      queue := [];
      selectedIndex := None;
    }

    /** The remove button of queue position `index`; the record is dropped,
        not returned to the image list. */
    method RemoveFromQueue(index: int)
      requires Valid()
      modifies this`queue
      ensures Valid()
      ensures queue == RemoveAt(old(queue), index) && images == old(images)
    {
      RemoveAtKeeps(queue, index, nextUrl);
      queue := RemoveAt(queue, index);
    }

    /** The clear-queue button. */
    method ClearQueue()
      requires Valid()
      modifies this`queue
      ensures Valid()
      ensures queue == [] && images == old(images)
    {
      queue := [];
    }

    /** Typing in the file-name field. */
    method SetPdfName(value: string)
      requires Valid()
      modifies this`pdfName
      ensures Valid()
      ensures pdfName == value
    {
      pdfName := value;
    }

    /** The generate button. An empty queue produces nothing. Otherwise the
        document starts with one blank page; each queued record is turned and
        drawn, a page is added before it unless it is the first, and it is
        placed on the last page. The result is saved under FileName(pdfName). */
    method GeneratePdf() returns (doc: Option<Pdf.Document>)
      ensures doc == Pdf.Assemble(queue, pdfName)
    {
      if |queue| == 0 {
        return None;
      }
      var pages: seq<seq<Pdf.Page>> := [[]];
      for i := 0 to |queue|
        invariant pages == if i == 0 then [[]] else Pdf.Pages(queue[..i])
      {
        var img := Pdf.Render(queue[i]);
        ghost var placed := if i == 0 then [] else Pdf.Pages(queue[..i]);
        if i != 0 {
          pages := pages + [[]];
        }
        assert pages == placed + [[]];
        assert pages[..|pages| - 1] == placed && pages[|pages| - 1] == [];
        var lastPage := pages[|pages| - 1] + [img];
        assert lastPage == [img];
        pages := pages[..|pages| - 1] + [lastPage];
        ghost var done := queue[..i + 1];
        assert done[..i] == queue[..i] && done[i] == queue[i];
        assert placed == Pdf.Pages(done[..i]);
      }
      assert queue[..|queue|] == queue;
      doc := Some(Pdf.Document(pages, Pdf.FileName(pdfName)));
    }
  }
}
