/**
 * The image gallery (`ImagesGallery`): one large image at a time with
 * previous/next buttons that wrap around, and a strip of thumbnails that
 * select an image directly.
 */
module ImagesGallery {
  import opened SharePoint

  /** The previous button: one back, from the first image to the last. */
  function Previous(index: int, count: int): (r: int)
    ensures 0 <= index < count ==> 0 <= r < count && r == (index - 1) % count
  {
    var newIndex := index - 1;
    if newIndex < 0 then count - 1 else newIndex
  }

  /** The next button: one forward, from the last image to the first. */
  function Following(index: int, count: int): (r: int)
    ensures 0 <= index < count ==> 0 <= r < count && r == (index + 1) % count
  {
    var newIndex := index + 1;
    if newIndex >= count then 0 else newIndex
  }

  /** Previous and next undo each other on every image. */
  lemma PreviousFollowingInverse(index: int, count: int)
    requires 0 <= index < count
    ensures Following(Previous(index, count), count) == index
    ensures Previous(Following(index, count), count) == index
  {
  }

  /** `k` presses of the next button. */
  function StepForward(index: int, count: int, k: nat): int {
    if k == 0 then index else Following(StepForward(index, count, k - 1), count)
  }

  /** Pressing next `k` times (at most once round) moves `k` images on, wrapping past the last. */
  lemma {:induction false} StepForwardWraps(index: int, count: int, k: nat)
    requires 0 <= index < count && k <= count
    ensures StepForward(index, count, k) == if index + k < count then index + k else index + k - count
  {
    if k > 0 {
      StepForwardWraps(index, count, k - 1);
    }
  }

  /** `count` presses of next come back to the image they started from. */
  lemma FullRoundReturns(index: int, count: int)
    requires 0 <= index < count
    ensures StepForward(index, count, count) == index
  {
    StepForwardWraps(index, count, count);
  }

  /** `dataSource`: each file's composed address (`original`). */
  function ImageUrls(absoluteUrl: string, data: seq<SpFile>): (r: seq<string>)
    ensures |r| == |data| && forall i :: 0 <= i < |data| ==> r[i] == FileUrl(absoluteUrl, data[i])
  {
    seq(|data|, i requires 0 <= i < |data| => FileUrl(absoluteUrl, data[i]))
  }

  /** A thumbnail of the strip: its image and whether it is marked active. */
  datatype Thumbnail = Thumbnail(src: string, active: bool)

  /** What `render` produces: the message for an empty list, or the images and the thumbnail strip. */
  datatype View = NoImagesFound | Gallery(images: seq<string>, thumbnails: seq<Thumbnail>)

  function Render(absoluteUrl: string, data: seq<SpFile>, currentIndex: int): (v: View)
    ensures v.NoImagesFound? <==> |data| == 0
  {
    var urls := ImageUrls(absoluteUrl, data);
    if |urls| == 0 then NoImagesFound
    else Gallery(urls, seq(|urls|, i requires 0 <= i < |urls| => Thumbnail(urls[i], i == currentIndex)))
  }

  /**
   * A gallery shows every file once, in order, in the large view and in the
   * strip, and marks exactly the thumbnail of the current image active.
   */
  lemma RenderedGallery(absoluteUrl: string, data: seq<SpFile>, currentIndex: int)
    requires |data| > 0
    ensures var v := Render(absoluteUrl, data, currentIndex);
      && v.Gallery?
      && v.images == ImageUrls(absoluteUrl, data)
      && |v.thumbnails| == |data|
      && (forall i :: 0 <= i < |data| ==> v.thumbnails[i].src == v.images[i])
      && (forall i :: 0 <= i < |data| ==> (v.thumbnails[i].active <==> i == currentIndex))
  {
  }

  class ImagesGallery {
    /** The `absoluteUrl` prop. */
    const absoluteUrl: string
    /** The `data` prop: the image files. */
    var data: seq<SpFile>
    /** `state.currentIndex`. */
    var currentIndex: int
    /** The handlers of the buttons are bound (the gallery was initialised while shown). */
    var bound: bool
    /** `$images.length` as captured by the bound handlers. */
    var imageCount: int

    /** While images are shown and the handlers bound, they count the shown images and the current one is among them. */
    predicate Valid()
      reads this
    {
      bound && |data| > 0 ==> imageCount == |data| && 0 <= currentIndex < |data|
    }

    constructor(absoluteUrl: string, data: seq<SpFile>)
      ensures Valid()
      ensures this.absoluteUrl == absoluteUrl && this.data == data && currentIndex == 0 && !bound
    {
      this.absoluteUrl := absoluteUrl;
      this.data := data;
      currentIndex := 0;
      bound := false;
      imageCount := 0;
    }

    /**
     * `initializeGallery`: with no images the gallery element is not rendered
     * and nothing happens; otherwise the handlers are bound to the images now
     * shown and the first image is selected.
     */
    method Initialize()
      modifies this
      ensures Valid() && data == old(data)
      ensures |data| == 0 ==> currentIndex == old(currentIndex) && bound == old(bound) && imageCount == old(imageCount)
      ensures |data| > 0 ==> currentIndex == 0 && bound && imageCount == |data|
    {
      if |data| == 0 {
        return;
      }
      imageCount := |data|;
      bound := true;
      currentIndex := 0;
    }

    /** `componentDidMount`. */
    method DidMount()
      requires Valid()
      modifies this
      ensures Valid() && data == old(data)
      ensures |data| > 0 ==> currentIndex == 0 && bound
      ensures |data| == 0 ==> currentIndex == old(currentIndex)
    {
      Initialize();
    }

    /**
     * `componentDidUpdate` after a different `data` array arrived: the gallery
     * is initialised again. An empty list keeps the old index.
     */
    method ReceiveData(newData: seq<SpFile>)
      requires Valid()
      modifies this
      ensures Valid() && data == newData
      ensures |newData| > 0 ==> currentIndex == 0 && bound
      ensures |newData| == 0 ==> currentIndex == old(currentIndex)
    {
      data := newData;
      Initialize();
    }

    /** The previous button (shown only with images, its handler bound on initialisation). */
    method PreviousClicked()
      requires Valid() && bound && |data| > 0
      modifies this
      ensures Valid() && data == old(data) && bound && imageCount == old(imageCount)
      ensures currentIndex == Previous(old(currentIndex), |data|)
    {
      var newIndex := currentIndex - 1;
      if newIndex < 0 {
        newIndex := imageCount - 1;
      }
      currentIndex := newIndex;
    }

    /** The next button. */
    method NextClicked()
      requires Valid() && bound && |data| > 0
      modifies this
      ensures Valid() && data == old(data) && bound && imageCount == old(imageCount)
      ensures currentIndex == Following(old(currentIndex), |data|)
    {
      var newIndex := currentIndex + 1;
      if newIndex >= imageCount {
        newIndex := 0;
      }
      currentIndex := newIndex;
    }

    /**
     * A click on the thumbnail at `index` shows that image. The strip is
     * React's own markup, so this works whether or not the buttons are bound.
     */
    method ThumbnailClicked(index: int)
      requires Valid() && 0 <= index < |data|
      modifies this
      ensures Valid() && data == old(data) && bound == old(bound) && imageCount == old(imageCount)
      ensures currentIndex == index
    {
      currentIndex := index;
    }
  }
}
