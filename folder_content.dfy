/**
 * How the viewer fills its data source when a folder is selected: the files
 * of the folder are sorted into the three categories by the ending of their
 * names (`getFolderContent`).
 */
module FolderContent {
  import opened Common
  import opened Text
  import opened SharePoint

  /** The data source the viewer starts with: three empty categories. */
  const InitialDataSource: seq<Category> := [
    Category("3D models", "3Ds", []),
    Category("Images", "images", []),
    Category("Drawings", "drawings", [])
  ]

  /** A 3D model: the lower-cased name ends with ".stl", ".obj" or ".dxf". */
  predicate IsModelFile(name: string) {
    var l := Lower(name);
    EndsWith(l, ".stl") || EndsWith(l, ".obj") || EndsWith(l, ".dxf")
  }

  /** An image: the lower-cased name ends with ".jpg", ".gif" or ".png". */
  predicate IsImageFile(name: string) {
    var l := Lower(name);
    EndsWith(l, ".jpg") || EndsWith(l, ".gif") || EndsWith(l, ".png")
  }

  /** A drawing: the name itself, not lower-cased, ends with ".pdf". */
  predicate IsDrawingFile(name: string) {
    EndsWith(name, ".pdf")
  }

  function IsModel(f: SpFile): bool { IsModelFile(f.name) }
  function IsImage(f: SpFile): bool { IsImageFile(f.name) }
  function IsDrawing(f: SpFile): bool { IsDrawingFile(f.name) }

  /**
   * The `switch` on the category's content type: the three known types get
   * the matching files of the folder, any other category is returned as it is.
   */
  function ClassifyCategory(item: Category, files: seq<SpFile>): (r: Category)
    ensures r.title == item.title && r.contentType == item.contentType
    ensures item.contentType !in {"3Ds", "images", "drawings"} ==> r == item
  {
    match item.contentType
    case "3Ds" => item.(content := Filter(files, IsModel))
    case "images" => item.(content := Filter(files, IsImage))
    case "drawings" => item.(content := Filter(files, IsDrawing))
    case _ => item
  }

  /** The predicate a known content type selects its files by. */
  function SelectorOf(contentType: string): SpFile -> bool
    requires contentType in {"3Ds", "images", "drawings"}
  {
    if contentType == "3Ds" then IsModel
    else if contentType == "images" then IsImage
    else IsDrawing
  }

  /**
   * A category of a known type lists, in the folder's order, exactly the
   * folder's files its selector accepts, each as often as the folder lists it.
   */
  lemma ClassifiedContent(item: Category, files: seq<SpFile>)
    requires item.contentType in {"3Ds", "images", "drawings"}
    ensures var r, p := ClassifyCategory(item, files), SelectorOf(item.contentType);
      && IsSubsequence(r.content, files)
      && (forall f :: f in r.content <==> f in files && p(f))
      && (forall f :: multiset(r.content)[f] == if p(f) then multiset(files)[f] else 0)
  {
    var r, p := ClassifyCategory(item, files), SelectorOf(item.contentType);
    assert r.content == Filter(files, p);
    FilterSelection(files, p);
  }

  /**
   * `this.state.dataSource.map(...)` followed by `setState`, when the request
   * for the selected folder's files succeeded with a `value` list (an empty
   * list counts). With no folder selected, or no usable answer, the data
   * source is kept.
   */
  function RefreshDataSource(dataSource: seq<Category>, currentUrl: string, files: Option<seq<SpFile>>): (r: seq<Category>)
    ensures |r| == |dataSource|
    ensures currentUrl == [] || files.None? ==> r == dataSource
    ensures currentUrl != [] && files.Some? ==>
      forall i :: 0 <= i < |r| ==> r[i] == ClassifyCategory(dataSource[i], files.value)
  {
    if |currentUrl| > 0 && files.Some? then
      seq(|dataSource|, i requires 0 <= i < |dataSource| => ClassifyCategory(dataSource[i], files.value))
    else dataSource
  }

  /** A refresh keeps every heading and content type, in order. */
  lemma RefreshKeepsHeadings(dataSource: seq<Category>, currentUrl: string, files: Option<seq<SpFile>>)
    ensures var r := RefreshDataSource(dataSource, currentUrl, files);
      forall i :: 0 <= i < |r| ==> r[i].title == dataSource[i].title && r[i].contentType == dataSource[i].contentType
  {
  }

  /**
   * Refreshing the initial data source with a folder's files gives the models,
   * the images and the drawings of that folder, under their headings.
   */
  lemma RefreshInitial(currentUrl: string, files: seq<SpFile>)
    requires currentUrl != []
    ensures RefreshDataSource(InitialDataSource, currentUrl, Some(files)) == [
      Category("3D models", "3Ds", Filter(files, IsModel)),
      Category("Images", "images", Filter(files, IsImage)),
      Category("Drawings", "drawings", Filter(files, IsDrawing))
    ]
  {
    var r := RefreshDataSource(InitialDataSource, currentUrl, Some(files));
    assert r[0] == ClassifyCategory(InitialDataSource[0], files);
    assert r[1] == ClassifyCategory(InitialDataSource[1], files);
    assert r[2] == ClassifyCategory(InitialDataSource[2], files);
  }

  /** The model and image endings exclude each other. */
  lemma ModelIsNoImage(name: string)
    ensures !(IsModelFile(name) && IsImageFile(name))
  {
    var l := Lower(name);
    if |l| >= 4 {
      var tail := l[|l| - 4..];
      assert EndsWith(l, ".stl") || EndsWith(l, ".obj") || EndsWith(l, ".dxf") ==> tail[1] in "sod";
      assert EndsWith(l, ".jpg") || EndsWith(l, ".gif") || EndsWith(l, ".png") ==> tail[1] in "jgp";
    }
  }

  /** A lower-case ASCII suffix of a name is also a suffix of the lower-cased name. */
  lemma LowerKeepsAsciiSuffix(name: string, suffix: string)
    requires forall i :: 0 <= i < |suffix| ==> !('A' <= suffix[i] <= 'Z') && suffix[i] < '\U{00C0}'
    requires EndsWith(name, suffix)
    ensures EndsWith(Lower(name), suffix)
  {
    var l := Lower(name);
    forall i | 0 <= i < |suffix| ensures l[|l| - |suffix|..][i] == suffix[i] {
      assert name[|name| - |suffix|..][i] == suffix[i];
    }
  }

  /** A drawing is neither a model nor an image. */
  lemma DrawingIsNeitherModelNorImage(name: string)
    requires IsDrawingFile(name)
    ensures !IsModelFile(name) && !IsImageFile(name)
  {
    LowerKeepsAsciiSuffix(name, ".pdf");
    var l := Lower(name);
    assert l[|l| - 4..] == ".pdf";
    assert l[|l| - 3] == 'p';
  }

  /**
   * Only the drawings test is case-sensitive: "PLAN.PDF" is no drawing, while
   * "PART.STL" is a model and "PHOTO.JPG" an image.
   */
  lemma CaseSensitivity()
    ensures !IsDrawingFile("PLAN.PDF") && IsDrawingFile("plan.pdf")
    ensures IsModelFile("PART.STL") && IsImageFile("PHOTO.JPG")
  {
    assert "PLAN.PDF"[4..] == ".PDF";
    assert "plan.pdf"[4..] == ".pdf";
    assert Lower("PART.STL")[4..] == ".stl";
    assert Lower("PHOTO.JPG")[5..] == ".jpg";
  }
}
