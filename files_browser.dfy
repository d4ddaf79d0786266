/**
 * The right-hand pane (`FilesBrowser`): an accordion with a section per
 * non-empty category of the data source, each holding the gallery for its
 * content type, every gallery given the same site address (`domen`).
 */
module FilesBrowser {
  import opened Common
  import opened SharePoint
  import opened FolderContent

  /**
   * `url.protocol + "/" + url.hostname`: with the protocol's colon and a
   * single slash ("https:/host"), which the galleries' first-slash doubling
   * turns back into "https://host".
   */
  function Domen(protocol: string, hostname: string): string {
    protocol + "/" + hostname
  }

  /**
   * The address a gallery composes from `domen` and a server-relative path:
   * the protocol gets its two slashes back, and the path's leading slash is
   * doubled as well.
   */
  lemma DomenFileUrl(protocol: string, hostname: string, path: string, name: string)
    requires '/' !in protocol && '/' !in hostname
    ensures FileUrl(Domen(protocol, hostname), SpFile(name, "/" + path)) == protocol + "//" + hostname + "//" + path
  {
    FileUrlDoublesFirstSlash(protocol, hostname, "", path, name);
    assert "" + "/" + path == "/" + path;
    assert protocol + "//" + hostname + "" + "//" + path == protocol + "//" + hostname + "//" + path;
  }

  predicate HasContent(c: Category) {
    |c.content| > 0
  }

  /** `getFilteredDataSource`: the categories with at least one file, in order. */
  function FilteredDataSource(dataSource: seq<Category>): seq<Category> {
    Filter(dataSource, HasContent)
  }

  /** The props every gallery receives. */
  datatype GalleryProps = GalleryProps(absoluteUrl: string, data: seq<SpFile>)

  /** What `renderContent` produces for a section. */
  datatype ContentView =
    | ModelsGalleryView(props: GalleryProps)
    | ImagesGalleryView(props: GalleryProps)
    | PdfsGalleryView(props: GalleryProps)
    | UnknownContentType

  /** `renderContent`: the gallery for the content type, or the "Unknown content type" notice. */
  function RenderContent(domen: string, contentType: string, content: seq<SpFile>): (v: ContentView)
    ensures v.ModelsGalleryView? <==> contentType == "3Ds"
    ensures v.ImagesGalleryView? <==> contentType == "images"
    ensures v.PdfsGalleryView? <==> contentType == "drawings"
    ensures v.UnknownContentType? <==> contentType !in {"3Ds", "images", "drawings"}
    ensures !v.UnknownContentType? ==> v.props == GalleryProps(domen, content)
  {
    match contentType
    case "3Ds" => ModelsGalleryView(GalleryProps(domen, content))
    case "images" => ImagesGalleryView(GalleryProps(domen, content))
    case "drawings" => PdfsGalleryView(GalleryProps(domen, content))
    case _ => UnknownContentType
  }

  /** One accordion section: the heading and the content below it. */
  datatype Section = Section(heading: string, body: ContentView)

  function SectionOf(domen: string, c: Category): Section {
    Section(c.title, RenderContent(domen, c.contentType, c.content))
  }

  /** `render`: a section per category of the filtered data source. */
  function RenderBrowser(domen: string, dataSource: seq<Category>): (r: seq<Section>)
    ensures var f := FilteredDataSource(dataSource);
      |r| == |f| && forall i :: 0 <= i < |f| ==> r[i] == SectionOf(domen, f[i])
  {
    var filtered := FilteredDataSource(dataSource);
    seq(|filtered|, i requires 0 <= i < |filtered| => SectionOf(domen, filtered[i]))
  }

  /**
   * Exactly the non-empty categories get a section, in their order; each
   * gallery is given `domen` and a non-empty list of files.
   */
  lemma BrowserSections(domen: string, dataSource: seq<Category>)
    ensures var r := RenderBrowser(domen, dataSource);
      && (forall i :: 0 <= i < |dataSource| && HasContent(dataSource[i]) ==> SectionOf(domen, dataSource[i]) in r)
      && (forall s :: s in r ==> exists c :: c in dataSource && HasContent(c) && s == SectionOf(domen, c))
      && (forall s :: s in r && !s.body.UnknownContentType? ==> s.body.props.absoluteUrl == domen && |s.body.props.data| > 0)
  {
    var f := FilteredDataSource(dataSource);
    var r := RenderBrowser(domen, dataSource);
    FilterSelection(dataSource, HasContent);
    forall i | 0 <= i < |dataSource| && HasContent(dataSource[i]) ensures SectionOf(domen, dataSource[i]) in r {
      var j :| 0 <= j < |f| && f[j] == dataSource[i];
      assert r[j] == SectionOf(domen, f[j]);
    }
    forall s | s in r ensures exists c :: c in dataSource && HasContent(c) && s == SectionOf(domen, c) {
      var j :| 0 <= j < |r| && r[j] == s;
      assert f[j] in f;
    }
  }

  /** No category without files gets a section. */
  lemma EmptyCategoriesHidden(domen: string, dataSource: seq<Category>)
    ensures forall s :: s in RenderBrowser(domen, dataSource) ==> s.body.UnknownContentType? || |s.body.props.data| > 0
    ensures (forall i :: 0 <= i < |dataSource| ==> !HasContent(dataSource[i])) ==> RenderBrowser(domen, dataSource) == []
  {
    BrowserSections(domen, dataSource);
    FilterEmpty(dataSource, HasContent);
  }

  /** The sections of two lists of categories one after the other. */
  lemma RenderBrowserAppend(domen: string, a: seq<Category>, b: seq<Category>)
    ensures RenderBrowser(domen, a + b) == RenderBrowser(domen, a) + RenderBrowser(domen, b)
  {
    FilterAppend(a, b, HasContent);
  }

  /** One category gets a section exactly when it has files. */
  lemma RenderBrowserSingle(domen: string, c: Category)
    ensures RenderBrowser(domen, [c]) == if HasContent(c) then [SectionOf(domen, c)] else []
  {
    assert [c][1..] == [];
    assert FilteredDataSource([c]) == if HasContent(c) then [c] else [];
  }

  /** Three categories: a section for each that has files, in their order. */
  lemma RenderBrowserThree(domen: string, a: Category, b: Category, c: Category)
    ensures RenderBrowser(domen, [a, b, c])
      == (if HasContent(a) then [SectionOf(domen, a)] else [])
       + (if HasContent(b) then [SectionOf(domen, b)] else [])
       + (if HasContent(c) then [SectionOf(domen, c)] else [])
  {
    assert [a, b, c] == [a] + [b] + [c];
    RenderBrowserAppend(domen, [a] + [b], [c]);
    RenderBrowserAppend(domen, [a], [b]);
    RenderBrowserSingle(domen, a);
    RenderBrowserSingle(domen, b);
    RenderBrowserSingle(domen, c);
  }

  /**
   * Right after a folder is selected, the pane shows, in this order, a
   * "3D models" section if the folder has models, an "Images" section if it
   * has images and a "Drawings" section if it has drawings.
   */
  lemma BrowseSelectedFolder(domen: string, currentUrl: string, files: seq<SpFile>)
    requires currentUrl != []
    ensures var models, images, drawings := Filter(files, IsModel), Filter(files, IsImage), Filter(files, IsDrawing);
      RenderBrowser(domen, RefreshDataSource(InitialDataSource, currentUrl, Some(files)))
        == (if models != [] then [Section("3D models", ModelsGalleryView(GalleryProps(domen, models)))] else [])
         + (if images != [] then [Section("Images", ImagesGalleryView(GalleryProps(domen, images)))] else [])
         + (if drawings != [] then [Section("Drawings", PdfsGalleryView(GalleryProps(domen, drawings)))] else [])
  {
    var a := Category("3D models", "3Ds", Filter(files, IsModel));
    var b := Category("Images", "images", Filter(files, IsImage));
    var c := Category("Drawings", "drawings", Filter(files, IsDrawing));
    RefreshInitial(currentUrl, files);
    RenderBrowserThree(domen, a, b, c);
    assert SectionOf(domen, a) == Section("3D models", ModelsGalleryView(GalleryProps(domen, a.content)));
    assert SectionOf(domen, b) == Section("Images", ImagesGalleryView(GalleryProps(domen, b.content)));
    assert SectionOf(domen, c) == Section("Drawings", PdfsGalleryView(GalleryProps(domen, c.content)));
  }
}
