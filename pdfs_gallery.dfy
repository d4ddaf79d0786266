/**
 * The drawings gallery (`PDFsGallery`): a tile per PDF with a preview of its
 * first page, and a viewer over the selected PDF with previous/next buttons
 * that wrap around.
 */
module PdfsGallery {
  import opened Common
  import opened SharePoint

  /** The preview address of a file: its address opened at page 1, fitted to the width. */
  function ThumbnailUrl(absoluteUrl: string, f: SpFile): string {
    FileUrl(absoluteUrl, f) + "#page=1&view=FitH"
  }

  /**
   * The previews `generateThumbnails` collects, keyed by file name: the loop
   * writes one entry per file in order, so a later file overwrites an earlier
   * one of the same name.
   */
  function Thumbnails(absoluteUrl: string, data: seq<SpFile>): map<string, string>
    decreases |data|
  {
    if data == [] then map[]
    else Thumbnails(absoluteUrl, data[..|data| - 1])[data[|data| - 1].name := ThumbnailUrl(absoluteUrl, data[|data| - 1])]
  }

  /** The `for ... of` loop of `generateThumbnails`. */
  method BuildThumbnails(absoluteUrl: string, data: seq<SpFile>) returns (thumbnails: map<string, string>)
    ensures thumbnails == Thumbnails(absoluteUrl, data)
  {
    thumbnails := map[];
    for i := 0 to |data|
      invariant thumbnails == Thumbnails(absoluteUrl, data[..i])
    {
      var item := data[i];
      var pdfUrl := FileUrl(absoluteUrl, item);
      thumbnails := thumbnails[item.name := pdfUrl + "#page=1&view=FitH"];
      assert data[..i + 1][..i] == data[..i];
    }
    assert data[..|data|] == data;
  }

  /** The names of the files. */
  function Names(data: seq<SpFile>): (r: set<string>)
    ensures forall i :: 0 <= i < |data| ==> data[i].name in r
    ensures forall n :: n in r ==> exists i :: 0 <= i < |data| && data[i].name == n
  {
    set i | 0 <= i < |data| :: data[i].name
  }

  /** The names of a list with one more file: that file's name added. */
  lemma NamesSnoc(init: seq<SpFile>, last: SpFile)
    ensures Names(init + [last]) == Names(init) + {last.name}
  {
    var data := init + [last];
    forall n | n in Names(data) ensures n in Names(init) + {last.name} {
      var i :| 0 <= i < |data| && data[i].name == n;
      if i < |init| { assert init[i] == data[i]; } else { assert data[i] == last; }
    }
    forall n | n in Names(init) ensures n in Names(data) {
      var i :| 0 <= i < |init| && init[i].name == n;
      assert data[i] == init[i];
    }
    assert data[|init|] == last;
  }

  /** There is a preview for exactly the names of the files. */
  lemma {:induction false} ThumbnailKeys(absoluteUrl: string, data: seq<SpFile>)
    ensures Thumbnails(absoluteUrl, data).Keys == Names(data)
    decreases |data|
  {
    if data != [] {
      var init := data[..|data| - 1];
      ThumbnailKeys(absoluteUrl, init);
      assert data == init + [data[|data| - 1]];
      NamesSnoc(init, data[|data| - 1]);
    }
  }

  /** The preview under a name is that of the LAST file with that name. */
  lemma {:induction false} ThumbnailLastWins(absoluteUrl: string, data: seq<SpFile>, j: nat)
    requires j < |data|
    requires forall k :: j < k < |data| ==> data[k].name != data[j].name
    ensures data[j].name in Thumbnails(absoluteUrl, data)
    ensures Thumbnails(absoluteUrl, data)[data[j].name] == ThumbnailUrl(absoluteUrl, data[j])
    decreases |data|
  {
    var init := data[..|data| - 1];
    if j < |data| - 1 {
      forall k | j < k < |init| ensures init[k].name != init[j].name {
        assert init[k] == data[k];
      }
      ThumbnailLastWins(absoluteUrl, init, j);
      assert init[j] == data[j];
    }
  }

  /** The two buttons of the viewer. */
  datatype Direction = Prev | Next

  /**
   * `navigatePdf`: one step in the direction, then the two wrap checks in
   * the order the source makes them (past the end to 0, below 0 to the last).
   */
  function Navigate(index: int, direction: Direction, count: int): (r: int)
    ensures 0 <= index < count ==> 0 <= r < count
    ensures 0 <= index < count ==> r == (index + (if direction == Next then 1 else -1)) % count
  {
    var stepped := if direction == Next then index + 1 else index - 1;
    var wrapped := if stepped >= count then 0 else stepped;
    if wrapped < 0 then count - 1 else wrapped
  }

  /** On a non-empty list the buttons undo each other. */
  lemma NavigateInverse(index: int, count: int)
    requires 0 <= index < count
    ensures Navigate(Navigate(index, Next, count), Prev, count) == index
    ensures Navigate(Navigate(index, Prev, count), Next, count) == index
  {
  }

  /**
   * On an empty list the previous button yields -1 and the next button 0:
   * neither is the index of a file.
   */
  lemma NavigateEmpty()
    ensures Navigate(0, Prev, 0) == -1 && Navigate(0, Next, 0) == 0
  {
  }

  /** One tile: the file's name and, when a preview is recorded under that name, the preview. */
  datatype Tile = Tile(title: string, thumbnail: Option<string>)

  /** The tiles `render` shows: one per file, in order; `thumbnails[item.Name] && ...` shows a non-empty preview. */
  function Tiles(data: seq<SpFile>, thumbnails: map<string, string>): (r: seq<Tile>)
    ensures |r| == |data|
    ensures forall i :: 0 <= i < |data| ==> r[i].title == data[i].name
  {
    seq(|data|, i requires 0 <= i < |data| =>
      var n := data[i].name;
      Tile(n, if n in thumbnails && thumbnails[n] != "" then Some(thumbnails[n]) else None))
  }

  /** With the previews generated from the same files, every tile shows a preview; with distinct names, its own. */
  lemma TilesWithOwnThumbnails(absoluteUrl: string, data: seq<SpFile>)
    ensures var t := Tiles(data, Thumbnails(absoluteUrl, data));
      forall i :: 0 <= i < |data| ==> t[i].thumbnail.Some?
    ensures (forall i, k :: 0 <= i < k < |data| ==> data[i].name != data[k].name) ==>
      var t := Tiles(data, Thumbnails(absoluteUrl, data));
      forall i :: 0 <= i < |data| ==> t[i].thumbnail == Some(ThumbnailUrl(absoluteUrl, data[i]))
  {
    var th := Thumbnails(absoluteUrl, data);
    var t := Tiles(data, th);
    ThumbnailKeys(absoluteUrl, data);
    forall i | 0 <= i < |data| ensures data[i].name in th && t[i].thumbnail == Some(th[data[i].name]) {
      ThumbnailValues(absoluteUrl, data, data[i].name);
    }
    if forall i, k :: 0 <= i < k < |data| ==> data[i].name != data[k].name {
      forall i | 0 <= i < |data| ensures t[i].thumbnail == Some(ThumbnailUrl(absoluteUrl, data[i])) {
        ThumbnailLastWins(absoluteUrl, data, i);
      }
    }
  }

  /** Every recorded preview ends with the page-and-fit fragment, so none is empty. */
  lemma {:induction false} ThumbnailValues(absoluteUrl: string, data: seq<SpFile>, n: string)
    requires n in Thumbnails(absoluteUrl, data)
    ensures |Thumbnails(absoluteUrl, data)[n]| >= |"#page=1&view=FitH"|
    decreases |data|
  {
    var init := data[..|data| - 1];
    if n != data[|data| - 1].name {
      ThumbnailValues(absoluteUrl, init, n);
    }
  }

  /**
   * Previews are generated on mount only: after the files change, a file
   * whose name was not among the files at mount time shows no preview.
   */
  lemma StaleThumbnails(absoluteUrl: string, mounted: seq<SpFile>, current: seq<SpFile>, i: nat)
    requires i < |current|
    requires forall k :: 0 <= k < |mounted| ==> mounted[k].name != current[i].name
    ensures Tiles(current, Thumbnails(absoluteUrl, mounted))[i].thumbnail.None?
  {
    ThumbnailKeys(absoluteUrl, mounted);
  }

  /** What the viewer part of `render` produces. */
  datatype Viewer = Closed | Frame(src: string, title: string) | RenderFailure

  /**
   * When open, the viewer frames the selected file's address with the
   * fit-to-width fragment; an index that is no file's (`selectedPdf` is
   * `undefined`) makes rendering throw.
   */
  function ViewerFrame(absoluteUrl: string, data: seq<SpFile>, selected: int, open: bool): (v: Viewer)
    ensures v.Closed? <==> !open
    ensures v.RenderFailure? <==> open && !(0 <= selected < |data|)
  {
    if !open then Closed
    else if 0 <= selected < |data| then Frame(FileUrl(absoluteUrl, data[selected]) + "#view=FitH", data[selected].name)
    else RenderFailure
  }

  /** Navigating an open viewer over a non-empty list shows the neighbouring file, never a failure. */
  lemma NavigationKeepsFrame(absoluteUrl: string, data: seq<SpFile>, selected: int, direction: Direction)
    requires 0 <= selected < |data|
    ensures var i := Navigate(selected, direction, |data|);
      0 <= i < |data| && ViewerFrame(absoluteUrl, data, i, true) == Frame(FileUrl(absoluteUrl, data[i]) + "#view=FitH", data[i].name)
  {
  }

  class PdfsGallery {
    /** The `absoluteUrl` prop. */
    const absoluteUrl: string
    /** The `data` prop: the PDF files. */
    var data: seq<SpFile>
    /** `state.selectedPdfIndex`. */
    var selectedPdfIndex: int
    /** `state.isViewerOpen`. */
    var isViewerOpen: bool
    /** `state.thumbnails`. */
    var thumbnails: map<string, string>

    /** The initial state: first file selected, viewer closed, no previews. */
    constructor(absoluteUrl: string, data: seq<SpFile>)
      ensures this.absoluteUrl == absoluteUrl && this.data == data
      ensures selectedPdfIndex == 0 && !isViewerOpen && thumbnails == map[]
    {
      this.absoluteUrl := absoluteUrl;
      this.data := data;
      selectedPdfIndex := 0;
      isViewerOpen := false;
      thumbnails := map[];
    }

    /** `componentDidMount` runs `generateThumbnails`. */
    method GenerateThumbnails()
      modifies this
      ensures thumbnails == Thumbnails(absoluteUrl, data)
      ensures data == old(data) && selectedPdfIndex == old(selectedPdfIndex) && isViewerOpen == old(isViewerOpen)
    {
      thumbnails := BuildThumbnails(absoluteUrl, data);
    }

    /** New `data` props: nothing is regenerated. */
    method SetData(newData: seq<SpFile>)
      modifies this
      ensures data == newData
      ensures thumbnails == old(thumbnails) && selectedPdfIndex == old(selectedPdfIndex) && isViewerOpen == old(isViewerOpen)
    {
      data := newData;
    }

    /** A click on the tile at `index`. */
    method OpenPdfViewer(index: int)
      modifies this
      ensures selectedPdfIndex == index && isViewerOpen
      ensures data == old(data) && thumbnails == old(thumbnails)
    {
      selectedPdfIndex := index;
      isViewerOpen := true;
    }

    /** The close button and the overlay. */
    method ClosePdfViewer()
      modifies this
      ensures !isViewerOpen
      ensures data == old(data) && thumbnails == old(thumbnails) && selectedPdfIndex == old(selectedPdfIndex)
    {
      isViewerOpen := false;
    }

    /** The previous and next buttons of the viewer. */
    method NavigatePdf(direction: Direction)
      modifies this
      ensures selectedPdfIndex == Navigate(old(selectedPdfIndex), direction, |data|)
      ensures data == old(data) && thumbnails == old(thumbnails) && isViewerOpen == old(isViewerOpen)
    {
      var newIndex := if direction == Next then selectedPdfIndex + 1 else selectedPdfIndex - 1;
      if newIndex >= |data| {
        newIndex := 0;
      }
      if newIndex < 0 {
        newIndex := |data| - 1;
      }
      selectedPdfIndex := newIndex;
    }
  }
}
