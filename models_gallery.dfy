/**
 * The 3D models gallery (`ModelsGallery`): a card per model file with its
 * name and a viewer of fixed size over the file's address.
 */
module ModelsGallery {
  import opened Common
  import opened Text
  import opened SharePoint
  import opened FolderContent
  import opened ModelViewer

  /** The props a card hands to its `ThreeJsViewer`. */
  datatype ViewerProps = ViewerProps(stlPath: string, width: int, height: int)

  /** One card: the file's name over its viewer. */
  datatype ModelCard = ModelCard(title: string, viewer: ViewerProps)

  const ViewerWidth := 300
  const ViewerHeight := 200

  /** `this.props.data.map(...)`: one card per file, in order. */
  function ModelCards(absoluteUrl: string, data: seq<SpFile>): (r: seq<ModelCard>)
    ensures |r| == |data|
    ensures forall i :: 0 <= i < |data| ==> r[i].title == data[i].name
  {
    seq(|data|, i requires 0 <= i < |data| =>
      ModelCard(data[i].name, ViewerProps(FileUrl(absoluteUrl, data[i]), ViewerWidth, ViewerHeight)))
  }

  /** Every viewer is 300 by 200 and opens the file's composed address. */
  lemma CardViewers(absoluteUrl: string, data: seq<SpFile>)
    ensures forall c :: c in ModelCards(absoluteUrl, data) ==> c.viewer.width == 300 && c.viewer.height == 200
    ensures forall i :: 0 <= i < |data| ==> ModelCards(absoluteUrl, data)[i].viewer.stlPath == FileUrl(absoluteUrl, data[i])
  {
  }

  /**
   * A name whose lower-cased form ends with a dot and `ext` (a word without
   * dots and without capitals) has extension `ext`.
   */
  lemma ExtensionOfLowerSuffix(name: string, ext: string)
    requires '.' !in ext && Lower(ext) == ext
    requires EndsWith(Lower(name), "." + ext)
    ensures FileExtension(name) == ext
  {
    var n, m := |name|, |ext|;
    var l := Lower(name);
    assert l[n - m - 1] == ("." + ext)[0] == '.';
    assert name[n - m - 1] == '.';
    var tail := name[n - m..];
    forall k | 0 <= k < m ensures tail[k] != '.' && LowerChar(tail[k]) == ext[k] {
      assert l[n - m + k] == ("." + ext)[k + 1];
      assert Lower(ext)[k] == ext[k];
    }
    assert name == name[..n - m - 1] + ['.'] + tail;
    LastSegmentAfter(name[..n - m - 1], '.', tail);
    assert Lower(tail) == ext;
  }

  /** A file the viewer sorts into the 3D models has an extension one of the three loaders handles. */
  lemma ModelFilesHaveLoader(name: string)
    requires IsModelFile(name)
    ensures LoaderFor(FileExtension(name)) in {Stl, Obj, DxfText}
  {
    var l := Lower(name);
    if EndsWith(l, ".stl") {
      ExtensionOfLowerSuffix(name, "stl");
    } else if EndsWith(l, ".obj") {
      ExtensionOfLowerSuffix(name, "obj");
    } else {
      ExtensionOfLowerSuffix(name, "dxf");
    }
  }

  /**
   * The viewer of a file addressed by its folder and name looks at the
   * file's own extension: composing the address changes nothing after the
   * last dot.
   */
  lemma CardExtensionIsFileExtension(absoluteUrl: string, folder: string, f: SpFile)
    requires f.serverRelativeUrl == "/" + folder + f.name && '.' in f.name
    ensures FileExtension(FileUrl(absoluteUrl, f)) == FileExtension(f.name)
  {
    ReplaceFirstSplit("", '/', folder + f.name, "//");
    assert "" + "/" + (folder + f.name) == f.serverRelativeUrl;
    var prefix := ReplaceFirst(absoluteUrl, "/", "//") + "//" + folder;
    assert FileUrl(absoluteUrl, f) == prefix + f.name;
    LastSegmentOfSuffix(prefix, f.name, '.');
  }

  /** Every card of the 3D models category opens its file with the STL, OBJ or DXF loader. */
  lemma ModelCardsLoad(absoluteUrl: string, folder: string, files: seq<SpFile>, i: nat)
    requires forall k :: 0 <= k < |files| ==> files[k].serverRelativeUrl == "/" + folder + files[k].name
    requires i < |Filter(files, IsModel)|
    ensures LoaderFor(FileExtension(ModelCards(absoluteUrl, Filter(files, IsModel))[i].viewer.stlPath)) in {Stl, Obj, DxfText}
  {
    var models := Filter(files, IsModel);
    var f := models[i];
    assert f in models;
    assert IsModelFile(f.name);
    FilterSelection(files, IsModel);
    var k :| 0 <= k < |files| && files[k] == f;
    var l := Lower(f.name);
    assert '.' in f.name by {
      assert |l| >= 4 && l[|l| - 4] == '.';
      assert LowerChar(f.name[|l| - 4]) == '.';
      assert f.name[|l| - 4] == '.';
    }
    CardExtensionIsFileExtension(absoluteUrl, folder, f);
    ModelFilesHaveLoader(f.name);
  }
}
