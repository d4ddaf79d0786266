/**
 * The 3D viewer component (`ThreeJsViewer`): which loader a file's address
 * selects, what ends up in the scene, and when the loading overlay goes away.
 *
 * The loaders, `fetch` and the DXF parser are outside the model: instead of
 * being called they are events the viewer reacts to, each a method taking
 * what the library hands to the callback.
 */
module ModelViewer {
  import opened Common
  import opened Text
  import opened Dxf

  /** The loader `loadModel` starts, or none when the format is not supported. */
  datatype Request = NotStarted | Stl | Obj | DxfText | Unsupported

  /** What the scene holds: the two lights `initScene` adds and the loaded models. */
  datatype SceneObject = DirectionalLight | AmbientLight | Mesh | LoadedObject | Drawing(children: seq<Child>)

  /** `stlPath.split('.').pop()?.toLowerCase()`. */
  function FileExtension(path: string): string {
    Lower(LastSegment(path, '.'))
  }

  /** The `switch` of `loadModel` on the extension. */
  function LoaderFor(extension: string): Request {
    match extension
    case "stl" => Stl
    case "obj" => Obj
    case "dxf" => DxfText
    case _ => Unsupported
  }

  /** The extension is the lower-cased text after the last dot, whatever comes before it. */
  lemma ExtensionAfterLastDot(base: string, extension: string)
    requires '.' !in extension
    ensures FileExtension(base + "." + extension) == Lower(extension)
  {
    LastSegmentAfter(base, '.', extension);
  }

  /** An address without a dot is its own extension, lower-cased. */
  lemma ExtensionWithoutDot(path: string)
    requires '.' !in path
    ensures FileExtension(path) == Lower(path)
  {
    LastSegmentWhole(path, '.');
  }

  /** The dispatch ignores letter case: ".STL" loads as STL. */
  lemma DispatchIgnoresCase()
    ensures LoaderFor(FileExtension("a.STL")) == Stl
  {
    ExtensionAfterLastDot("a", "STL");
    assert "a" + "." + "STL" == "a.STL";
    assert Lower("STL") == "stl";
  }

  /** The dispatch looks at the last dot only: "a.dxf.bak" is not supported. */
  lemma DispatchLastDotOnly()
    ensures LoaderFor(FileExtension("a.dxf.bak")) == Unsupported
  {
    ExtensionAfterLastDot("a.dxf", "bak");
    assert "a.dxf" + "." + "bak" == "a.dxf.bak";
    assert Lower("bak") == "bak";
  }

  /** An address ending in a dot has the empty extension, which is not supported. */
  lemma DispatchTrailingDot()
    ensures FileExtension("a.") == [] && LoaderFor(FileExtension("a.")) == Unsupported
  {
    ExtensionAfterLastDot("a", "");
    assert "a" + "." + "" == "a.";
  }

  /** "a.stl" loads as STL and "b.obj" as OBJ. */
  lemma DispatchExamples()
    ensures LoaderFor(FileExtension("a.stl")) == Stl && LoaderFor(FileExtension("b.obj")) == Obj
  {
    assert FileExtension("a.stl") == "stl" by {
      ExtensionAfterLastDot("a", "stl");
      assert "a" + "." + "stl" == "a.stl";
      assert Lower("stl") == "stl";
    }
    assert FileExtension("b.obj") == "obj" by {
      ExtensionAfterLastDot("b", "obj");
      assert "b" + "." + "obj" == "b.obj";
      assert Lower("obj") == "obj";
    }
  }

  /** A supported loader is chosen exactly for the three extensions, in any letter case. */
  lemma LoaderForSupported(path: string)
    ensures LoaderFor(FileExtension(path)) != Unsupported <==> FileExtension(path) in {"stl", "obj", "dxf"}
  {
  }

  class ThreeJsViewer {
    /** The `stlPath` prop: the file's address. The parent may hand a new one to a mounted viewer. */
    var stlPath: string
    /** `state.isLoading`: the overlay is shown. */
    var isLoading: bool
    /** `this.scene` is set: the mount point existed when the scene was built. */
    var hasScene: bool
    /** The objects added to the scene, in order. */
    var scene: seq<SceneObject>
    /** The loader `loadModel` started. */
    var requested: Request

    /** The scene, when there is one, starts with the two lights; without one nothing was added. */
    predicate Valid()
      reads this
    {
      (hasScene ==> |scene| >= 2 && scene[0] == DirectionalLight && scene[1] == AmbientLight)
      && (!hasScene ==> scene == [])
      && (requested == Unsupported ==> !isLoading)
    }

    /** The loader started, if any, is the one for the current address. */
    predicate LoadFollowsPath()
      reads this
    {
      requested == NotStarted || requested == LoaderFor(FileExtension(stlPath))
    }

    /** The constructor: the overlay is shown and there is no scene yet. */
    constructor(stlPath: string)
      ensures Valid()
      ensures this.stlPath == stlPath && isLoading && !hasScene && scene == [] && requested == NotStarted
    {
      this.stlPath := stlPath;
      isLoading := true;
      hasScene := false;
      scene := [];
      requested := NotStarted;
    }

    /** `componentDidMount`: build the scene, then start loading. */
    method DidMount(mounted: bool)
      requires Valid()
      modifies this
      ensures Valid() && stlPath == old(stlPath)
      ensures mounted ==> hasScene && scene == [DirectionalLight, AmbientLight]
      ensures !mounted ==> hasScene == old(hasScene) && scene == old(scene)
      ensures requested == LoaderFor(FileExtension(stlPath)) && LoadFollowsPath()
      ensures isLoading <==> old(isLoading) && requested != Unsupported
    {
      InitScene(mounted);
      LoadModel();
    }

    /**
     * `initScene`: without a mount point nothing happens; otherwise a new
     * scene holding a directional and an ambient light.
     */
    method InitScene(mounted: bool)
      requires Valid()
      modifies this
      ensures Valid() && stlPath == old(stlPath)
      ensures mounted ==> hasScene && scene == [DirectionalLight, AmbientLight]
      ensures !mounted ==> hasScene == old(hasScene) && scene == old(scene)
      ensures isLoading == old(isLoading) && requested == old(requested)
    {
      if !mounted {
        return;
      }
      scene := [DirectionalLight, AmbientLight];
      hasScene := true;
    }

    /** `loadModel`: start the loader for the extension; an unsupported one hides the overlay at once. */
    method LoadModel()
      requires Valid()
      modifies this
      ensures Valid() && stlPath == old(stlPath)
      ensures requested == LoaderFor(FileExtension(stlPath))
      ensures isLoading <==> old(isLoading) && requested != Unsupported
      ensures hasScene == old(hasScene) && scene == old(scene)
    {
      var fileExtension := FileExtension(stlPath);
      match fileExtension
      case "stl" =>
        requested := Stl;
      case "obj" =>
        requested := Obj;
      case "dxf" =>
        requested := DxfText;
      case _ =>
        requested := Unsupported;
        isLoading := false;
    }

    /**
     * The STL loader's success callback: without a scene it returns and the
     * overlay stays; otherwise the mesh is added and the overlay hidden.
     */
    method OnStlGeometry()
      requires Valid() && requested == Stl
      modifies this
      ensures Valid() && stlPath == old(stlPath) && requested == old(requested)
      ensures hasScene == old(hasScene)
      ensures old(hasScene) ==> scene == old(scene) + [Mesh] && !isLoading
      ensures !old(hasScene) ==> scene == old(scene) && isLoading == old(isLoading)
    {
      if !hasScene {
        return;
      }
      scene := scene + [Mesh];
      isLoading := false;
    }

    /** The OBJ loader's success callback, the same way for the loaded object. */
    method OnObjObject()
      requires Valid() && requested == Obj
      modifies this
      ensures Valid() && stlPath == old(stlPath) && requested == old(requested)
      ensures hasScene == old(hasScene)
      ensures old(hasScene) ==> scene == old(scene) + [LoadedObject] && !isLoading
      ensures !old(hasScene) ==> scene == old(scene) && isLoading == old(isLoading)
    {
      if !hasScene {
        return;
      }
      scene := scene + [LoadedObject];
      isLoading := false;
    }

    /** The loaders' error callbacks and the `.catch` of the DXF chain: the overlay is hidden, nothing is added. */
    method OnLoadError()
      requires Valid() && requested in {Stl, Obj, DxfText}
      modifies this
      ensures Valid() && stlPath == old(stlPath)
      ensures !isLoading && scene == old(scene) && hasScene == old(hasScene) && requested == old(requested)
    {
      isLoading := false;
    }

    /**
     * The DXF text arrived. Without a scene: return, overlay kept. A parse
     * that fails or yields no entity list: overlay hidden, nothing added. A
     * walk that throws lands in the `.catch`: overlay hidden, nothing added.
     * Otherwise the group the walk built is added and the overlay hidden:
     * the walk as written, whose block groups are empty (see
     * `Dxf.AsWrittenGroupsEmpty`). `stackDepth` is how many nested walks the
     * call stack allows.
     */
    method OnDxfText(parsed: Option<Document>, stackDepth: nat)
      requires Valid() && requested == DxfText
      modifies this
      ensures Valid() && stlPath == old(stlPath) && requested == old(requested) && hasScene == old(hasScene)
      ensures !old(hasScene) ==> scene == old(scene) && isLoading == old(isLoading)
      ensures old(hasScene) ==> !isLoading
      ensures old(hasScene) ==> scene == old(scene) + DrawnFor(parsed, stackDepth)
    {
      if !hasScene {
        return;
      }
      if parsed.None? || parsed.value.entities.None? {
        isLoading := false;
        return;
      }
      var dxf := parsed.value;
      var group := new Group();
      var ok := ProcessEntities(dxf, dxf.entities.value, stackDepth, group);
      assert ok ==> group.children == Flatten(dxf, dxf.entities.value, stackDepth).children;
      if !ok {
        isLoading := false;
        return;
      }
      scene := scene + [Drawing(group.children)];
      isLoading := false;
    }

    /**
     * A mounted viewer receives a new `stlPath` from its parent (the cards are
     * keyed by position, so React reuses the viewer). There is no
     * `componentDidUpdate`: only the prop changes, the scene, the overlay and
     * the loader started stay as they were.
     */
    method ReceiveStlPath(path: string)
      requires Valid()
      modifies this
      ensures Valid()
      ensures stlPath == path
      ensures isLoading == old(isLoading) && hasScene == old(hasScene)
      ensures scene == old(scene) && requested == old(requested)
    {
      stlPath := path;
    }

    /**
     * The discard-and-reload a change of address calls for: on a new address
     * the loaded models are dropped (the lights stay), the overlay is shown
     * again and the loader for the new extension is started; the same address
     * changes nothing.
     */
    method ReceiveStlPathReloading(path: string)
      requires Valid()
      modifies this
      ensures Valid()
      ensures stlPath == path && hasScene == old(hasScene)
      ensures path == old(stlPath) ==>
        isLoading == old(isLoading) && scene == old(scene) && requested == old(requested)
      ensures path != old(stlPath) ==>
        && scene == (if hasScene then [DirectionalLight, AmbientLight] else [])
        && requested == LoaderFor(FileExtension(path))
        && (isLoading <==> requested != Unsupported)
      ensures old(LoadFollowsPath()) ==> LoadFollowsPath()
    {
      if path == stlPath {
        return;
      }
      stlPath := path;
      Reload();
    }

    /** Drop the loaded models, show the overlay and start the loader for the current address. */
    method Reload()
      requires Valid()
      modifies this
      ensures Valid() && stlPath == old(stlPath) && hasScene == old(hasScene)
      ensures scene == (if hasScene then [DirectionalLight, AmbientLight] else [])
      ensures requested == LoaderFor(FileExtension(stlPath)) && LoadFollowsPath()
      ensures isLoading <==> requested != Unsupported
    {
      if hasScene {
        scene := [DirectionalLight, AmbientLight];
      }
      requested := NotStarted;
      isLoading := true;
      LoadModel();
    }
  }

  /**
   * The address change as written leaves a stale load: a viewer mounted on
   * "a.stl" and then handed "b.obj" still holds the STL load, while the new
   * address calls for the OBJ loader.
   */
  method StaleLoadAfterNewPath() returns (v: ThreeJsViewer)
    ensures v.stlPath == "b.obj" && v.requested == Stl && v.hasScene
    ensures LoaderFor(FileExtension(v.stlPath)) == Obj && !v.LoadFollowsPath()
  {
    v := new ThreeJsViewer("a.stl");
    DispatchExamples();
    v.DidMount(true);
    v.ReceiveStlPath("b.obj");
  }

  /**
   * The reloading version keeps the load in step with the address: the same
   * viewer handed "b.obj" starts the OBJ loader over a scene of lights only.
   */
  method ReloadAfterNewPath() returns (v: ThreeJsViewer)
    ensures v.stlPath == "b.obj" && v.requested == Obj && v.isLoading
    ensures v.scene == [DirectionalLight, AmbientLight] && v.LoadFollowsPath()
  {
    v := new ThreeJsViewer("a.stl");
    DispatchExamples();
    v.DidMount(true);
    v.ReceiveStlPathReloading("b.obj");
  }

  /**
   * What a DXF answer adds to a scene: the drawing the walk as written
   * builds when parsing and the walk succeed, nothing otherwise.
   */
  function DrawnFor(parsed: Option<Document>, stackDepth: nat): (r: seq<SceneObject>)
    ensures |r| <= 1
    ensures parsed.None? || parsed.value.entities.None? ==> r == []
    ensures r != [] ==> r[0].Drawing? && AllGroupsEmpty(r[0].children)
  {
    if parsed.None? || parsed.value.entities.None? then []
    else
      var o := Flatten(parsed.value, parsed.value.entities.value, stackDepth);
      if o.Thrown? then []
      else
        AsWrittenGroupsEmpty(parsed.value, parsed.value.entities.value, stackDepth);
        [Drawing(o.children)]
  }

  /** What the scene would receive if each inserted block were drawn inside its own group. */
  function DrawnForIntended(parsed: Option<Document>, stackDepth: nat): (r: seq<SceneObject>)
    ensures |r| <= 1
    ensures parsed.None? || parsed.value.entities.None? ==> r == []
  {
    if parsed.None? || parsed.value.entities.None? then []
    else
      var o := Nest(parsed.value, parsed.value.entities.value, stackDepth);
      if o.Thrown? then [] else [Drawing(o.children)]
  }

  /**
   * The viewer adds a drawing exactly when the intended walk would, and its
   * drawing is the intended one with every block's content moved out of the
   * block's group.
   */
  lemma DrawnForIsHoisted(parsed: Option<Document>, stackDepth: nat)
    ensures |DrawnFor(parsed, stackDepth)| == |DrawnForIntended(parsed, stackDepth)|
    ensures DrawnFor(parsed, stackDepth) != [] ==>
      DrawnFor(parsed, stackDepth)[0].children == Hoist(DrawnForIntended(parsed, stackDepth)[0].children)
  {
    if parsed.Some? && parsed.value.entities.Some? {
      AsWrittenIsHoisted(parsed.value, parsed.value.entities.value, stackDepth);
    }
  }

  /** A drawing whose entities include a self-inserting block adds nothing to the scene, whatever the stack allows. */
  lemma SelfInsertionDrawsNothing(doc: Document, i: nat, e: Entity, es: seq<Entity>, stackDepth: nat)
    requires doc.entities.Some? && i < |doc.entities.value| && doc.entities.value[i] == e
    requires e.kind == "INSERT" && BlockKey(e) in doc.blocks
    requires doc.blocks[BlockKey(e)].entities == Some(es) && e in es
    ensures DrawnFor(Some(doc), stackDepth) == []
  {
    var j :| 0 <= j < |es| && es[j] == e;
    SelfInsertionThrows(doc, e, es, j, stackDepth);
    ThrowingEntity(doc, doc.entities.value, i, stackDepth);
  }
}
