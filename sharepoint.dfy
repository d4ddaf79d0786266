/**
 * The records the components pass around: a file as the SharePoint REST API
 * describes it, a category of the viewer's data source, and the address a
 * gallery composes for a file.
 */
module SharePoint {
  import opened Text

  /** A file record; only the two properties the components read (`Name`, `ServerRelativeUrl`). */
  datatype SpFile = SpFile(name: string, serverRelativeUrl: string)

  /** One entry of the data source: its heading, its content-type tag and the files listed under it. */
  datatype Category = Category(title: string, contentType: string, content: seq<SpFile>)

  /**
   * The address every gallery composes for a file: the first '/' of the site
   * prefix and the first '/' of the server-relative path are each doubled.
   */
  function FileUrl(absoluteUrl: string, file: SpFile): string {
    ReplaceFirst(absoluteUrl, "/", "//") + ReplaceFirst(file.serverRelativeUrl, "/", "//")
  }

  /**
   * Only the first '/' of each part is doubled; whatever follows it, later
   * slashes included, is kept.
   */
  lemma FileUrlDoublesFirstSlash(siteHead: string, siteTail: string, pathHead: string, pathTail: string, name: string)
    requires '/' !in siteHead && '/' !in pathHead
    ensures FileUrl(siteHead + "/" + siteTail, SpFile(name, pathHead + "/" + pathTail))
         == siteHead + "//" + siteTail + pathHead + "//" + pathTail
  {
    ReplaceFirstSplit(siteHead, '/', siteTail, "//");
    ReplaceFirstSplit(pathHead, '/', pathTail, "//");
  }

  /** A part without any '/' is used as it is. */
  lemma FileUrlWithoutSlashes(absoluteUrl: string, file: SpFile)
    requires '/' !in absoluteUrl && '/' !in file.serverRelativeUrl
    ensures FileUrl(absoluteUrl, file) == absoluteUrl + file.serverRelativeUrl
  {
    ReplaceAbsent(absoluteUrl, '/', "//");
    ReplaceAbsent(file.serverRelativeUrl, '/', "//");
  }
}
