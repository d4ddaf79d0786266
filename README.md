# Root document library viewer, modelled in Dafny

The system is a SharePoint web part that browses the folders of a site's
default document library. The left pane holds a searchable folder tree. The
right pane is an accordion with up to three sections for the selected
folder's files:

- "3D models": a card per STL, OBJ or DXF file, each with a three.js viewer;
- "Images": a gallery with previous and next buttons and a thumbnail strip;
- "Drawings": tiles of PDF previews and a PDF viewer with previous and next buttons.

This project models the logic the web part itself contains, one Dafny module per concern:

- `FolderTree` covers the tree search (`filterTree`), the HTML serialisation of a
  folder (`renderTreeItem`) and the ordering of the top-level folders by name.
- `FolderContent` covers how the files of the selected folder are sorted into the
  three categories by the ending of their names (`getFolderContent`).
- `ModelViewer` covers the 3D viewer component: the loader chosen by a file's
  extension, the scene contents and the loading overlay.
- `Dxf` covers the `processEntities` walk that turns a parsed DXF drawing into
  lines and block groups.
- `ImagesGallery` and `PdfsGallery` cover the two galleries' navigation state,
  the previews and the addresses they show.
- `FilesBrowser` and `ModelsGallery` cover the accordion's sections, which
  gallery renders each, and the per-model viewer properties.
- `Text`, `Common` and `SharePoint` hold what these modules share:
  - the JavaScript string operations (`toLowerCase`, `indexOf`, `endsWith`,
    `replace` with a string pattern, `split(...).pop()`, string comparison);
  - the order-preserving `filter`;
  - the file record;
  - the address every gallery composes for a file.

The components are React classes whose state changes in place. Those that
update fields step by step (the 3D viewer, the two galleries) are Dafny classes
with `modifies` clauses. The pure parts (search, serialisation, classification,
section rendering) are functions with lemmas.

Every gallery composes a file's address the same way. It takes the site prefix
`protocol + "/" + hostname` and the server-relative path, and doubles the
FIRST '/' of each. The protocol comes back as "https://host", and the path's
leading slash is doubled too ("https://host//sites/...").

The user's clicks and the loaders' callbacks are methods the model calls as
events. What the loaders hand over is passed in as a parameter: the parsed DXF
drawing, or whether the viewer's mount point existed.

## Model

| member | source | states |
|---|---|---|
| `Common.Filter` | src/webparts/rootDocumentLibraryViewer/components/FilesBrowser.tsx:109 | The result is no longer than the input and every element of it satisfies the predicate. |
| `Common.FilterSelection` | src/webparts/rootDocumentLibraryViewer/components/FilesBrowser.tsx:109 | The filter keeps a subsequence of the input: exactly the elements that satisfy the predicate, each as often as it occurs, in input order. |
| `Common.FilterAppend` | src/webparts/rootDocumentLibraryViewer/components/FilesBrowser.tsx:109 | Filtering a concatenation is the concatenation of the two filtered parts. |
| `Common.FilterSingle` | src/webparts/rootDocumentLibraryViewer/components/FilesBrowser.tsx:109 | A one-element list is kept exactly when its element satisfies the predicate. |
| `Common.FilterEmpty` | src/webparts/rootDocumentLibraryViewer/components/FilesBrowser.tsx:109 | A filter gives the empty list if and only if no element satisfies the predicate. |
| `Common.FilterAll` | src/webparts/rootDocumentLibraryViewer/components/FilesBrowser.tsx:109 | A predicate that holds of every element keeps the whole list. |
| `Text.LowerChar` | src/webparts/rootDocumentLibraryViewer/components/RootDocumentLibraryViewer.tsx:261 | Capitals A–Z map to a–z (32 code points up); other characters below U+00C0 are unchanged; nothing at or above U+00C0 falls below it. |
| `Text.Lower` | src/webparts/rootDocumentLibraryViewer/components/RootDocumentLibraryViewer.tsx:261 | `toLowerCase` keeps the length and lower-cases character by character. |
| `Text.IndexOf` | src/webparts/rootDocumentLibraryViewer/components/RootDocumentLibraryViewer.tsx:261 | The result is the FIRST index where the query occurs, or -1 exactly when it occurs nowhere. |
| `Text.ReplaceFirst` | src/webparts/rootDocumentLibraryViewer/components/ImagesGallery.tsx:79 | `replace` returns a string without the pattern unchanged; otherwise the first occurrence (as `IndexOf` finds it) is replaced, and the text before and after it is kept. |
| `Text.ReplaceAbsent` | src/webparts/rootDocumentLibraryViewer/components/ImagesGallery.tsx:79 | A string without the pattern is returned as it is. |
| `Text.ReplaceFirstSplit` | src/webparts/rootDocumentLibraryViewer/components/ImagesGallery.tsx:79 | Only the first occurrence is replaced; everything after it, later occurrences included, is kept. |
| `Text.LastSegment` | src/webparts/rootDocumentLibraryViewer/components/ThreeJsViewer.tsx:74 | `split(sep).pop()` is a suffix of the string without the separator, and the separator stands right before it whenever it is shorter than the string. |
| `Text.LastSegmentAfter` | src/webparts/rootDocumentLibraryViewer/components/ThreeJsViewer.tsx:74 | The last segment of `a + sep + b` is `b` when `b` has no separator, whatever `a` is. |
| `Text.LastSegmentOfSuffix` | src/webparts/rootDocumentLibraryViewer/components/ThreeJsViewer.tsx:74 | A prefix in front of a string that holds the separator does not change its last segment. |
| `Text.LastSegmentWhole` | src/webparts/rootDocumentLibraryViewer/components/ThreeJsViewer.tsx:74 | A string without the separator is its own last segment. |
| `Text.LeqTotal` | src/webparts/rootDocumentLibraryViewer/components/RootDocumentLibraryViewer.tsx:184 | Any two names are comparable by the string order. |
| `Text.LeqTransitive` | src/webparts/rootDocumentLibraryViewer/components/RootDocumentLibraryViewer.tsx:184 | The string order is transitive. |
| `SharePoint.FileUrlDoublesFirstSlash` | src/webparts/rootDocumentLibraryViewer/components/ModelsGallery.tsx:19 | Composing a file's address doubles only the first '/' of the site prefix and of the path; later slashes are kept. |
| `SharePoint.FileUrlWithoutSlashes` | src/webparts/rootDocumentLibraryViewer/components/ModelsGallery.tsx:19 | A part with no '/' is used unchanged. |
| `FolderTree.FilterTree` | src/webparts/rootDocumentLibraryViewer/components/RootDocumentLibraryViewer.tsx:259-273 | The reduce loop with its recursive call on the sub-folders computes exactly the search result `FilterForest`. |
| `FolderTree.FilterForestIsSelection` | src/webparts/rootDocumentLibraryViewer/components/RootDocumentLibraryViewer.tsx:259-272 | The search keeps exactly the folders whose subtree holds a match (its own lower-cased name or that of a descendant contains the lower-cased query), in input order. Each kept folder has its id and name unchanged, its sub-folders filtered the same way (an absent list becomes empty) and its expanded flag set to "query not empty". |
| `FolderTree.FilterNodeKeepsHits` | src/webparts/rootDocumentLibraryViewer/components/RootDocumentLibraryViewer.tsx:260-271 | One folder survives exactly when its subtree holds a match, and it is then pruned as above. |
| `FolderTree.FilterForestExpanded` | src/webparts/rootDocumentLibraryViewer/components/RootDocumentLibraryViewer.tsx:264-269 | Every folder of a search result, at every depth, has its `items` list and is expanded exactly when the query is not empty. |
| `FolderTree.EmptyQueryKeepsEverything` | src/webparts/rootDocumentLibraryViewer/components/RootDocumentLibraryViewer.tsx:261-268 | With the empty query every folder at every depth survives, in order. |
| `FolderTree.FilterForestAppend` | src/webparts/rootDocumentLibraryViewer/components/RootDocumentLibraryViewer.tsx:260-272 | Searching two lists one after the other is searching each. |
| `FolderTree.FilterForestIdempotent` | src/webparts/rootDocumentLibraryViewer/components/RootDocumentLibraryViewer.tsx:259-273 | Searching a search result again with the same query gives the same forest. |
| `FolderTree.FilterNodeIdempotent` | src/webparts/rootDocumentLibraryViewer/components/RootDocumentLibraryViewer.tsx:260-271 | A surviving folder searched again stays exactly as it is. |
| `FolderTree.RenderedExpandedClass` | src/webparts/rootDocumentLibraryViewer/components/RootDocumentLibraryViewer.tsx:238 | Right after `class="tree-item ` the row carries "expanded" exactly when the folder is expanded. |
| `FolderTree.RenderedSelectedClass` | src/webparts/rootDocumentLibraryViewer/components/RootDocumentLibraryViewer.tsx:229-238 | After the expanded class and a space, the row carries "selected" exactly when the folder's id is the current URL. |
| `FolderTree.IconSlot` | src/webparts/rootDocumentLibraryViewer/components/RootDocumentLibraryViewer.tsx:240 | The icon part opens with an expand-icon span exactly for a folder with at least one sub-folder, and that span shows '−' when expanded and '+' otherwise. |
| `FolderTree.RenderedExpandIcon` | src/webparts/rootDocumentLibraryViewer/components/RootDocumentLibraryViewer.tsx:228-240 | At the icon slot of the rendered row there is an expand-icon span exactly when the folder has at least one sub-folder. |
| `FolderTree.RenderedIconMark` | src/webparts/rootDocumentLibraryViewer/components/RootDocumentLibraryViewer.tsx:240 | The expand icon of a folder with sub-folders shows '−' when the folder is expanded and '+' otherwise. |
| `FolderTree.ChildrenSlot` | src/webparts/rootDocumentLibraryViewer/components/RootDocumentLibraryViewer.tsx:231-235 | The children part opens with the tree-children wrapper exactly for a folder with sub-folders. |
| `FolderTree.DisplaySlot` | src/webparts/rootDocumentLibraryViewer/components/RootDocumentLibraryViewer.tsx:232 | The wrapper's `display` is "block" exactly when the folder is expanded. |
| `FolderTree.RenderedChildrenWrapper` | src/webparts/rootDocumentLibraryViewer/components/RootDocumentLibraryViewer.tsx:231-243 | After the icon and the name, the rendered row holds the children wrapper exactly when the folder has sub-folders. |
| `FolderTree.RenderedChildrenDisplay` | src/webparts/rootDocumentLibraryViewer/components/RootDocumentLibraryViewer.tsx:232-243 | In the rendered row, the children wrapper of a folder with sub-folders is displayed "block" exactly when the folder is expanded. |
| `FolderTree.InsertByText` | src/webparts/rootDocumentLibraryViewer/components/RootDocumentLibraryViewer.tsx:184 | Inserting a folder into a list sorted by name gives a sorted list holding the same folders plus the new one. |
| `FolderTree.SortByText` | src/webparts/rootDocumentLibraryViewer/components/RootDocumentLibraryViewer.tsx:184 | The top-level folders come out in ascending order of name, as a rearrangement of the same folders (same multiset). |
| `FolderContent.ClassifyCategory` | src/webparts/rootDocumentLibraryViewer/components/RootDocumentLibraryViewer.tsx:129-158 | Every category keeps its title and content type; a category of any other type is returned untouched. |
| `FolderContent.ClassifiedContent` | src/webparts/rootDocumentLibraryViewer/components/RootDocumentLibraryViewer.tsx:131-155 | A '3Ds', 'images' or 'drawings' category lists exactly the folder's files its ending test accepts, in folder order and with their multiplicities. |
| `FolderContent.RefreshDataSource` | src/webparts/rootDocumentLibraryViewer/components/RootDocumentLibraryViewer.tsx:113-163 | With a folder selected and a `value` list received, every category is classified against those files; with no folder or no usable answer the data source is kept. |
| `FolderContent.RefreshKeepsHeadings` | src/webparts/rootDocumentLibraryViewer/components/RootDocumentLibraryViewer.tsx:129-159 | A refresh keeps every heading and content type, in order. |
| `FolderContent.RefreshInitial` | src/webparts/rootDocumentLibraryViewer/components/RootDocumentLibraryViewer.tsx:33-49 | Refreshing the initial three categories gives the folder's models, images and drawings under "3D models", "Images" and "Drawings". |
| `FolderContent.ModelIsNoImage` | src/webparts/rootDocumentLibraryViewer/components/RootDocumentLibraryViewer.tsx:134-147 | No file is both a model and an image. |
| `FolderContent.DrawingIsNeitherModelNorImage` | src/webparts/rootDocumentLibraryViewer/components/RootDocumentLibraryViewer.tsx:134-153 | A drawing is neither a model nor an image. |
| `FolderContent.CaseSensitivity` | src/webparts/rootDocumentLibraryViewer/components/RootDocumentLibraryViewer.tsx:135-153 | "PLAN.PDF" is no drawing (the '.pdf' test is case-sensitive), while "PART.STL" is a model and "PHOTO.JPG" an image. |
| `ModelViewer.ExtensionAfterLastDot` | src/webparts/rootDocumentLibraryViewer/components/ThreeJsViewer.tsx:74 | The extension is the lower-cased text after the last dot, whatever precedes it. |
| `ModelViewer.ExtensionWithoutDot` | src/webparts/rootDocumentLibraryViewer/components/ThreeJsViewer.tsx:74 | An address without a dot is, lower-cased, its own extension. |
| `ModelViewer.DispatchIgnoresCase` | src/webparts/rootDocumentLibraryViewer/components/ThreeJsViewer.tsx:74-79 | "a.STL" is loaded by the STL loader. |
| `ModelViewer.DispatchLastDotOnly` | src/webparts/rootDocumentLibraryViewer/components/ThreeJsViewer.tsx:74-89 | "a.dxf.bak" is not supported: only the last dot counts. |
| `ModelViewer.DispatchTrailingDot` | src/webparts/rootDocumentLibraryViewer/components/ThreeJsViewer.tsx:74-89 | "a." has the empty extension, which is not supported. |
| `ModelViewer.LoaderForSupported` | src/webparts/rootDocumentLibraryViewer/components/ThreeJsViewer.tsx:76-89 | A loader is started exactly for the extensions "stl", "obj" and "dxf". |
| `ModelViewer.ThreeJsViewer.constructor` | src/webparts/rootDocumentLibraryViewer/components/ThreeJsViewer.tsx:27-33 | The viewer starts with the overlay shown, no scene and no load started. |
| `ModelViewer.ThreeJsViewer.DidMount` | src/webparts/rootDocumentLibraryViewer/components/ThreeJsViewer.tsx:35-38 | Mounting builds the scene when the mount point exists, then starts the loader for the extension. An unsupported extension hides the overlay. |
| `ModelViewer.ThreeJsViewer.InitScene` | src/webparts/rootDocumentLibraryViewer/components/ThreeJsViewer.tsx:40-71 | Without a mount point nothing changes; otherwise the scene holds the directional and the ambient light. |
| `ModelViewer.ThreeJsViewer.LoadModel` | src/webparts/rootDocumentLibraryViewer/components/ThreeJsViewer.tsx:73-90 | The loader started is the one for the file's extension. The overlay is hidden at once exactly when the format is unsupported; the scene is untouched. |
| `ModelViewer.ThreeJsViewer.OnStlGeometry` | src/webparts/rootDocumentLibraryViewer/components/ThreeJsViewer.tsx:97-117 | Without a scene nothing changes and the overlay stays; otherwise the mesh is appended and the overlay hidden. |
| `ModelViewer.ThreeJsViewer.OnObjObject` | src/webparts/rootDocumentLibraryViewer/components/ThreeJsViewer.tsx:133-157 | The same for the OBJ loader's object. |
| `ModelViewer.ThreeJsViewer.OnLoadError` | src/webparts/rootDocumentLibraryViewer/components/ThreeJsViewer.tsx:121-124 | A loader error, or the `.catch` of the DXF chain, hides the overlay and adds nothing. |
| `ModelViewer.ThreeJsViewer.OnDxfText` | src/webparts/rootDocumentLibraryViewer/components/ThreeJsViewer.tsx:171-274 | Without a scene nothing changes. A missing parse or entity list, or a walk that throws, hides the overlay and adds nothing. Otherwise the group the walk as written builds (`Dxf.ProcessEntities`) is appended. The overlay is never shown again. |
| `ModelViewer.ThreeJsViewer.ReceiveStlPath` | src/webparts/rootDocumentLibraryViewer/components/ThreeJsViewer.tsx:19-38 | A new `stlPath` prop reaches a mounted viewer: the component has no `componentDidUpdate`, so only the address changes; scene, overlay and started loader stay. |
| `ModelViewer.ThreeJsViewer.ReceiveStlPathReloading` | src/webparts/rootDocumentLibraryViewer/components/ThreeJsViewer.tsx:35-38 | The reload a new address calls for: on a different address the models are dropped, the overlay shown and the loader for the new extension started, so the load again follows the address; the same address changes nothing. |
| `ModelViewer.ThreeJsViewer.Reload` | src/webparts/rootDocumentLibraryViewer/components/ThreeJsViewer.tsx:73-90 | The scene keeps only its lights, the overlay is shown unless the new format is unsupported, and the loader started is the one for the current address. |
| `ModelViewer.DispatchExamples` | src/webparts/rootDocumentLibraryViewer/components/ThreeJsViewer.tsx:74-89 | "a.stl" selects the STL loader and "b.obj" the OBJ loader. |
| `ModelViewer.StaleLoadAfterNewPath` | src/webparts/rootDocumentLibraryViewer/components/ModelsGallery.tsx:15-24 | A viewer mounted on "a.stl" and then given "b.obj" still holds the STL load and scene although its address calls for the OBJ loader. |
| `ModelViewer.ReloadAfterNewPath` | src/webparts/rootDocumentLibraryViewer/components/ModelsGallery.tsx:15-24 | With the reload, the same sequence ends with the OBJ loader started over a scene of lights only. |
| `ModelViewer.DrawnFor` | src/webparts/rootDocumentLibraryViewer/components/ThreeJsViewer.tsx:177-266 | A missing drawing or one without an entity list adds nothing; at most one object is ever added, and every block group of an added drawing is empty. |
| `ModelViewer.DrawnForIntended` | src/webparts/rootDocumentLibraryViewer/components/ThreeJsViewer.tsx:222-248 | What the scene would receive with each inserted block drawn inside its own group: nothing for a missing drawing or entity list, at most one object. |
| `ModelViewer.DrawnForIsHoisted` | src/webparts/rootDocumentLibraryViewer/components/ThreeJsViewer.tsx:222-266 | The viewer adds a drawing exactly when the intended walk would, and its drawing is the intended one with every block's content moved in front of the block's (then empty) group. |
| `ModelViewer.SelfInsertionDrawsNothing` | src/webparts/rootDocumentLibraryViewer/components/ThreeJsViewer.tsx:217-228 | A drawing that inserts a block containing that same insertion adds nothing to the scene, however deep the stack. |
| `Dxf.PointsOf` | src/webparts/rootDocumentLibraryViewer/components/ThreeJsViewer.tsx:209-211 | One point per vertex, in order. |
| `Dxf.BlockKey` | src/webparts/rootDocumentLibraryViewer/components/ThreeJsViewer.tsx:219 | A non-empty name is the key; an empty or absent name falls through to the block, and with the block absent too the property key is "undefined". |
| `Dxf.UniformScale` | src/webparts/rootDocumentLibraryViewer/components/ThreeJsViewer.tsx:243-246 | The block group's uniform scale is never zero: a set non-zero number is used, anything else leaves 1. |
| `Dxf.Group.constructor` | src/webparts/rootDocumentLibraryViewer/components/ThreeJsViewer.tsx:190 | A new group has no children. |
| `Dxf.ProcessEntities` | src/webparts/rootDocumentLibraryViewer/components/ThreeJsViewer.tsx:193-254 | The walk as written appends to the group exactly the children `Flatten` gives, and reports a throw exactly when `Flatten` throws. |
| `Dxf.ProcessEntity` | src/webparts/rootDocumentLibraryViewer/components/ThreeJsViewer.tsx:194-253 | One entity as written: a LINE with both ends adds its 2-point line and one missing an end throws; a polyline with at least 2 vertices adds one line; an INSERT of a known block first walks the block's entities into the same group, then adds an empty group with the transform; anything else adds nothing. |
| `Dxf.FlattenStep` | src/webparts/rootDocumentLibraryViewer/components/ThreeJsViewer.tsx:194 | The walk over one more entity is the walk so far followed by that entity's contribution. |
| `Dxf.FlattenAppend` | src/webparts/rootDocumentLibraryViewer/components/ThreeJsViewer.tsx:193-254 | Walking a concatenation is walking the first part, then the second; a throw ends the walk. |
| `Dxf.ThenAssociative` | src/webparts/rootDocumentLibraryViewer/components/ThreeJsViewer.tsx:194-253 | Sequencing the steps of the walk is associative, so entities can be grouped freely. |
| `Dxf.ThrownPrefix` | src/webparts/rootDocumentLibraryViewer/components/ThreeJsViewer.tsx:193-254 | Once a prefix of the entities throws, the whole walk throws. |
| `Dxf.ThrowingEntity` | src/webparts/rootDocumentLibraryViewer/components/ThreeJsViewer.tsx:197-202 | One throwing entity (a LINE without its end points) makes the whole walk throw, wherever it stands. |
| `Dxf.FlattenDeeper` | src/webparts/rootDocumentLibraryViewer/components/ThreeJsViewer.tsx:227 | A completed walk is unchanged by more stack. |
| `Dxf.ContributionDeeper` | src/webparts/rootDocumentLibraryViewer/components/ThreeJsViewer.tsx:217-248 | A completed entity contribution is unchanged by more stack. |
| `Dxf.SelfInsertionThrows` | src/webparts/rootDocumentLibraryViewer/components/ThreeJsViewer.tsx:219-228 | A block that inserts itself recurses until the stack runs out, so inserting it throws whatever the depth. |
| `Dxf.ProcessEntitiesInto` | src/webparts/rootDocumentLibraryViewer/components/ThreeJsViewer.tsx:193-254 | The corrected walk appends exactly the children `Nest` gives, and reports a throw exactly when `Nest` throws. |
| `Dxf.ProcessEntityInto` | src/webparts/rootDocumentLibraryViewer/components/ThreeJsViewer.tsx:217-248 | The corrected callback walks an inserted block into a fresh group carrying the insertion's transform. |
| `Dxf.NestAppend` | src/webparts/rootDocumentLibraryViewer/components/ThreeJsViewer.tsx:193-254 | The corrected walk over a concatenation is the walk over each part in turn. |
| `Dxf.NestThrownPrefix` | src/webparts/rootDocumentLibraryViewer/components/ThreeJsViewer.tsx:193-254 | Once a prefix throws, the corrected walk throws. |
| `Dxf.AsWrittenIsHoisted` | src/webparts/rootDocumentLibraryViewer/components/ThreeJsViewer.tsx:222-248 | The walk as written equals the corrected walk with every block's content moved out in front of its (then empty) group: the same lines in the same order, and a throw exactly when the corrected walk throws. |
| `Dxf.ContributionIsHoisted` | src/webparts/rootDocumentLibraryViewer/components/ThreeJsViewer.tsx:217-251 | The same for one entity. |
| `Dxf.AsWrittenGroupsEmpty` | src/webparts/rootDocumentLibraryViewer/components/ThreeJsViewer.tsx:224-248 | As written, every block group the walk adds is empty. |
| `Dxf.SameLinesDrawn` | src/webparts/rootDocumentLibraryViewer/components/ThreeJsViewer.tsx:226-228 | Both walks complete on the same drawings and draw the same number of lines. |
| `Dxf.InsertedLineMissesTransform` | src/webparts/rootDocumentLibraryViewer/components/ThreeJsViewer.tsx:226-248 | For a block "B" holding one line, inserted at (10, 0, 0), the walk as written adds the line untransformed and an empty group moved to (10, 0, 0); the corrected walk puts the line into the moved group. |
| `ImagesGallery.Previous` | src/webparts/rootDocumentLibraryViewer/components/ImagesGallery.tsx:56-59 | From an image in range, the previous button stays in range and is one back modulo the count, the first going to the last. |
| `ImagesGallery.Following` | src/webparts/rootDocumentLibraryViewer/components/ImagesGallery.tsx:62-65 | From an image in range, the next button stays in range and is one forward modulo the count, the last going to the first. |
| `ImagesGallery.PreviousFollowingInverse` | src/webparts/rootDocumentLibraryViewer/components/ImagesGallery.tsx:56-66 | Previous and next undo each other. |
| `ImagesGallery.StepForwardWraps` | src/webparts/rootDocumentLibraryViewer/components/ImagesGallery.tsx:62-65 | Pressing next k times (k at most the count) moves k images on, wrapping past the last. |
| `ImagesGallery.FullRoundReturns` | src/webparts/rootDocumentLibraryViewer/components/ImagesGallery.tsx:62-65 | Pressing next as often as there are images returns to the starting image. |
| `ImagesGallery.ImageUrls` | src/webparts/rootDocumentLibraryViewer/components/ImagesGallery.tsx:78-80 | One composed address per file, in order. |
| `ImagesGallery.Render` | src/webparts/rootDocumentLibraryViewer/components/ImagesGallery.tsx:82-88 | The "No images found" message is rendered exactly when there are no files. |
| `ImagesGallery.RenderedGallery` | src/webparts/rootDocumentLibraryViewer/components/ImagesGallery.tsx:90-129 | With files, the large view and the strip show every file once, in order, and exactly the current image's thumbnail is active. |
| `ImagesGallery.ImagesGallery.constructor` | src/webparts/rootDocumentLibraryViewer/components/ImagesGallery.tsx:17-23 | The gallery starts at index 0 with no handlers bound. |
| `ImagesGallery.ImagesGallery.Initialize` | src/webparts/rootDocumentLibraryViewer/components/ImagesGallery.tsx:35-75 | With no images nothing happens (the gallery element is not rendered). Otherwise the handlers are bound to the images now shown and the first image is selected. |
| `ImagesGallery.ImagesGallery.DidMount` | src/webparts/rootDocumentLibraryViewer/components/ImagesGallery.tsx:25-27 | Mounting initialises the gallery. |
| `ImagesGallery.ImagesGallery.ReceiveData` | src/webparts/rootDocumentLibraryViewer/components/ImagesGallery.tsx:29-33 | A new file list re-initialises the gallery: the index resets to 0, except for an empty list, which keeps it. |
| `ImagesGallery.ImagesGallery.PreviousClicked` | src/webparts/rootDocumentLibraryViewer/components/ImagesGallery.tsx:56-60 | The index becomes `Previous` of the old one, counted over the images captured at initialisation (which are the shown ones). |
| `ImagesGallery.ImagesGallery.NextClicked` | src/webparts/rootDocumentLibraryViewer/components/ImagesGallery.tsx:62-66 | The index becomes `Following` of the old one. |
| `ImagesGallery.ImagesGallery.ThumbnailClicked` | src/webparts/rootDocumentLibraryViewer/components/ImagesGallery.tsx:114-121 | A click on thumbnail k makes k the current image; nothing else changes. |
| `PdfsGallery.BuildThumbnails` | src/webparts/rootDocumentLibraryViewer/components/PDFsGallery.tsx:32-35 | The loop builds exactly the preview map `Thumbnails`. |
| `PdfsGallery.ThumbnailKeys` | src/webparts/rootDocumentLibraryViewer/components/PDFsGallery.tsx:29-38 | There is a preview for exactly the names of the files. |
| `PdfsGallery.ThumbnailLastWins` | src/webparts/rootDocumentLibraryViewer/components/PDFsGallery.tsx:32-35 | The preview under a name is that of the last file with that name. |
| `PdfsGallery.ThumbnailValues` | src/webparts/rootDocumentLibraryViewer/components/PDFsGallery.tsx:34 | Every preview ends with the page-and-fit fragment, so none is empty. |
| `PdfsGallery.Navigate` | src/webparts/rootDocumentLibraryViewer/components/PDFsGallery.tsx:53-58 | From an index in range, navigation stays in range and is one step on (next) or back (previous) modulo the count, wrapping at both ends. |
| `PdfsGallery.NavigateInverse` | src/webparts/rootDocumentLibraryViewer/components/PDFsGallery.tsx:51-62 | On a non-empty list, previous and next undo each other. |
| `PdfsGallery.NavigateEmpty` | src/webparts/rootDocumentLibraryViewer/components/PDFsGallery.tsx:57-58 | On an empty list, previous gives -1 and next gives 0: neither is a file's index. |
| `PdfsGallery.Tiles` | src/webparts/rootDocumentLibraryViewer/components/PDFsGallery.tsx:71-93 | One tile per file, in order, titled with the file's name. |
| `PdfsGallery.TilesWithOwnThumbnails` | src/webparts/rootDocumentLibraryViewer/components/PDFsGallery.tsx:77-90 | With previews generated from the same files, every tile shows a preview; with distinct names, each shows its own file's preview. |
| `PdfsGallery.StaleThumbnails` | src/webparts/rootDocumentLibraryViewer/components/PDFsGallery.tsx:25-27 | Previews are generated on mount only: after the files change, a file whose name was not among the mounted files shows no preview. |
| `PdfsGallery.ViewerFrame` | src/webparts/rootDocumentLibraryViewer/components/PDFsGallery.tsx:96-113 | Closed exactly when not open. Rendering fails exactly when open with an index that is no file's. |
| `PdfsGallery.NavigationKeepsFrame` | src/webparts/rootDocumentLibraryViewer/components/PDFsGallery.tsx:51-62 | Navigating an open viewer over a non-empty list shows the neighbouring file's frame, `#view=FitH` appended, never a failure. |
| `PdfsGallery.PdfsGallery.constructor` | src/webparts/rootDocumentLibraryViewer/components/PDFsGallery.tsx:16-23 | Initial state: index 0, viewer closed, no previews. |
| `PdfsGallery.PdfsGallery.GenerateThumbnails` | src/webparts/rootDocumentLibraryViewer/components/PDFsGallery.tsx:29-38 | The previews become `Thumbnails` of the files; nothing else changes. |
| `PdfsGallery.PdfsGallery.SetData` | src/webparts/rootDocumentLibraryViewer/components/PDFsGallery.tsx:25-27 | New files regenerate nothing: previews, index and open flag are kept. |
| `PdfsGallery.PdfsGallery.OpenPdfViewer` | src/webparts/rootDocumentLibraryViewer/components/PDFsGallery.tsx:40-45 | The clicked index is selected and the viewer opened. |
| `PdfsGallery.PdfsGallery.ClosePdfViewer` | src/webparts/rootDocumentLibraryViewer/components/PDFsGallery.tsx:47-49 | Only the open flag is cleared; the selected index is kept. |
| `PdfsGallery.PdfsGallery.NavigatePdf` | src/webparts/rootDocumentLibraryViewer/components/PDFsGallery.tsx:51-62 | The index becomes `Navigate` of the old one; nothing else changes. |
| `FilesBrowser.DomenFileUrl` | src/webparts/rootDocumentLibraryViewer/components/FilesBrowser.tsx:34-36 | With no '/' in protocol or host, a gallery's address for path "/p" is `protocol + "//" + host + "//" + p`. |
| `FilesBrowser.RenderContent` | src/webparts/rootDocumentLibraryViewer/components/FilesBrowser.tsx:95-106 | '3Ds' renders the models gallery, 'images' the images gallery and 'drawings' the PDFs gallery, each given `domen` and the content; anything else is "Unknown content type". |
| `FilesBrowser.RenderBrowser` | src/webparts/rootDocumentLibraryViewer/components/FilesBrowser.tsx:112-126 | One section per kept category, in order, with its title over its content. |
| `FilesBrowser.BrowserSections` | src/webparts/rootDocumentLibraryViewer/components/FilesBrowser.tsx:108-126 | Exactly the categories with files get a section. Every gallery gets `domen` as `absoluteUrl` and a non-empty file list. |
| `FilesBrowser.EmptyCategoriesHidden` | src/webparts/rootDocumentLibraryViewer/components/FilesBrowser.tsx:108-110 | No category without files gets a section; with every category empty there is none. |
| `FilesBrowser.RenderBrowserAppend` | src/webparts/rootDocumentLibraryViewer/components/FilesBrowser.tsx:108-126 | The sections of two lists of categories are those of each, one after the other. |
| `FilesBrowser.RenderBrowserSingle` | src/webparts/rootDocumentLibraryViewer/components/FilesBrowser.tsx:108-126 | One category gets a section exactly when it has files. |
| `FilesBrowser.RenderBrowserThree` | src/webparts/rootDocumentLibraryViewer/components/FilesBrowser.tsx:108-126 | Three categories get, in their order, a section each exactly when they have files. |
| `FilesBrowser.BrowseSelectedFolder` | src/webparts/rootDocumentLibraryViewer/components/FilesBrowser.tsx:112-126 | Right after a folder is selected, the pane shows, in this order, "3D models" if the folder has models, "Images" if it has images and "Drawings" if it has drawings, each with its files. |
| `ModelsGallery.ModelCards` | src/webparts/rootDocumentLibraryViewer/components/ModelsGallery.tsx:15-24 | One card per file, in order, titled with the file's name. |
| `ModelsGallery.CardViewers` | src/webparts/rootDocumentLibraryViewer/components/ModelsGallery.tsx:19-21 | Every viewer is 300 by 200 and is given its file's composed address as `stlPath`. |
| `ModelsGallery.ExtensionOfLowerSuffix` | src/webparts/rootDocumentLibraryViewer/components/ThreeJsViewer.tsx:74 | A name whose lower-cased form ends in "." plus a lower-case word without dots has that word as its extension. |
| `ModelsGallery.ModelFilesHaveLoader` | src/webparts/rootDocumentLibraryViewer/components/ThreeJsViewer.tsx:74-85 | Every file the folder view sorts into the 3D models gets the STL, OBJ or DXF loader. |
| `ModelsGallery.CardExtensionIsFileExtension` | src/webparts/rootDocumentLibraryViewer/components/ModelsGallery.tsx:19 | Composing the address does not change a file's extension. |
| `ModelsGallery.ModelCardsLoad` | src/webparts/rootDocumentLibraryViewer/components/ModelsGallery.tsx:15-24 | Provided every file's `serverRelativeUrl` is "/" + folder + name (SharePoint's address shape), every card of the 3D models category is given an address whose extension selects one of the three loaders. |

## Findings

| source | as written | input that shows it | evidently intended | confidence | as-written member | corrected member |
|---|---|---|---|---|---|---|
| src/webparts/rootDocumentLibraryViewer/components/ThreeJsViewer.tsx:222-248 | An INSERT walks its block's entities with `processEntities(block.entities)`, which adds them to the top-level `group`. The `blockGroup` that receives the position, rotation and scale is added with no children, so no insertion transform ever reaches a line. | A drawing whose one entity inserts block "B" at (10, 0, 0), where "B" holds a line from (0, 0, 0) to (1, 0, 0). The line is drawn at the origin, and an empty group is moved to (10, 0, 0). | The block's entities become the children of `blockGroup`, so they are drawn moved, rotated and scaled by the insertion. | not executed | `Dxf.InsertedLineMissesTransform` (on `Dxf.Flatten` via `Dxf.ProcessEntities`) | `Dxf.ProcessEntitiesInto` (specified by `Dxf.Nest`; `ModelViewer.DrawnForIntended` is the scene it would give), related to the code as written by `Dxf.AsWrittenIsHoisted` and `ModelViewer.DrawnForIsHoisted` |
| src/webparts/rootDocumentLibraryViewer/components/ModelsGallery.tsx:15-24 | The cards are keyed by position, and `ThreeJsViewer` has no `componentDidUpdate`; it reads `stlPath` only while mounting. When another folder is selected, the viewer at each position gets the new file's address but keeps the old scene and never starts a new load. | Select a folder holding "a.stl", then one holding "b.obj": card 0's title reads "b.obj" while its viewer still shows the STL mesh, and no OBJ load starts. | A change of address discards the loaded model and loads the new file. | not executed | `ModelViewer.ThreeJsViewer.ReceiveStlPath`, exhibited by `ModelViewer.StaleLoadAfterNewPath` | `ModelViewer.ThreeJsViewer.ReceiveStlPathReloading` (keeps `LoadFollowsPath`), exhibited by `ModelViewer.ReloadAfterNewPath` |

## Left out

- I/O becomes parameters or events. This covers the SharePoint REST and PnP calls (`getFolders`, `getFoldersById`, `getFoldersDocuments`, the `spHttpClient.get` of `getFolderContent`), `fetch`, the STL and OBJ loaders and `DxfParser.parseSync`. The answers are inputs, so there is no concurrency and no ordering of asynchronous answers (a late answer for an earlier folder is not modelled).
- The recursive loading of the folder tree is not modelled. Because `getFolders` is network I/O, the tree is taken as given.
- jQuery and DOM work is UI side effect and is not modelled. This covers the resizable panes, the accordion, `hide`/`fadeIn`, `slideToggle`, the `innerHTML` assignment and the class and icon toggling of the tree click handler (`RootDocumentLibraryViewer.tsx:197-224`). Only the data the handler stores (the selected URL, which triggers the refresh) is modelled, through `FolderContent.RefreshDataSource`.
- The image gallery's indicator click (`ImagesGallery.tsx:68-71`) is not modelled. No element with the indicator class is rendered, so the handler is bound to nothing.
- three.js rendering is not modelled: scene background, camera, renderer, OrbitControls and the animation loop. The materials, the centring of models and groups, the -π/2 rotation, the degrees-to-radians conversion of an insertion's rotation and `fitCameraToObject` are floating-point geometry over library types. Coordinates are modelled as reals.
- Dxf.ProcessEntities: the source has no depth guard, and the JavaScript call stack limits the recursion. The model takes that limit as a `depth` parameter: a walk that needs more nested calls throws, as the stack overflow does, and lands in the same `.catch`. How deep a real stack goes is not modelled.
- Dxf.ProcessEntity: `dxf.blocks` is taken to be present and is a map from name to block. The prototype-chain keys of a JavaScript object (`"constructor"`, `"toString"`) are not modelled. The vertices of a polyline are taken to be objects (a missing vertex would throw). `NaN` coordinates are not modelled.
- Text.LowerChar: covers only the capitals of ASCII, Latin-1 and basic Cyrillic. Other scripts, and the special cases of `toLowerCase` (such as 'İ'), are left unchanged.
- Text.Leq: compares Unicode scalar values, while JavaScript compares UTF-16 code units. The two differ only between characters above U+FFFF and those from U+E000 to U+FFFF.
- FolderTree.SortByText: the comparator never returns 0, so JavaScript fixes no order among folders with equal names. The model claims only sorted order and the same multiset of folders, not which of several equal-named folders comes first.
- Text.ReplaceFirst: the `$` patterns of a replacement string are not modelled. The components only ever pass "//".
- FilesBrowser.Domen: `new URL(...)` is not modelled. Protocol and host are inputs.
- Props compared by reference (`prevProps.data !== this.props.data`) are modelled as "a new list arrived". React's batching of `setState` is not modelled: each handler's update takes effect before the next event.
- A load abandoned by a change of address may still call back later; `ModelViewer.ThreeJsViewer.ReceiveStlPathReloading` does not model such late callbacks, nor the disposal of the old scene's GPU resources.
- Alt texts, CSS module class names and the spinner markup are not modelled.
