/**
 * The summary pass of the older `src` package: for every file of the
 * metadata, its file type read from the directories, its content and link
 * flags read from the content record, whether another page links to it, and
 * the node type that follows from those flags.
 */
module SummaryData {
  import opened PyValue
  import opened Filters
  import opened NodeType
  import opened Backlinks
  import opened FileName

  // ---------------------------------------------------------------------------
  // `determine_file_type`

  /**
   * `determine_file_type`: the function is total over the six types;
   * "asset" wins whenever the parent is the assets directory or the assets
   * directory is anywhere among the path's parts; each other type is given
   * exactly when its directory is the parent and no earlier rule applies;
   * "other" means the file lies in none of them and under no assets
   * directory.
   */
  function SrcFileType(dirs: Dirs, parent: string, parts: seq<string>): (r: string)
    ensures r in ["asset", "draw", "journal", "page", "whiteboard", "other"]
    ensures r == "asset" <==> parent == dirs.assets || dirs.assets in parts
    ensures r == "draw" <==> parent != dirs.assets && dirs.assets !in parts && parent == dirs.draws
    ensures r == "journal" <==> parent != dirs.assets && dirs.assets !in parts && parent != dirs.draws
                                && parent == dirs.journals
    ensures r == "page" <==> parent != dirs.assets && dirs.assets !in parts && parent != dirs.draws
                             && parent != dirs.journals && parent == dirs.pages
    ensures r == "whiteboard" <==> parent != dirs.assets && dirs.assets !in parts && parent != dirs.draws
                                   && parent != dirs.journals && parent != dirs.pages && parent == dirs.whiteboards
    ensures r == "other" <==> dirs.assets !in parts && !IsDir(dirs, parent)
  {
    if parent == dirs.assets || dirs.assets in parts then "asset"
    else if parent == dirs.draws then "draw"
    else if parent == dirs.journals then "journal"
    else if parent == dirs.pages then "page"
    else if parent == dirs.whiteboards then "whiteboard"
    else "other"
  }

  /**
   * With distinct directory names and no assets directory among the parts,
   * the `src` rule and the plain parent lookup agree; an assets directory
   * higher up the path makes any file an asset.
   */
  lemma SrcFileTypeIsLookup(dirs: Dirs, parent: string, parts: seq<string>)
    requires DirsDistinct(dirs)
    ensures dirs.assets !in parts ==> SrcFileType(dirs, parent, parts) == ParentType(dirs, parent)
    ensures dirs.assets in parts ==> SrcFileType(dirs, parent, parts) == "asset"
  {
    ParentTypeLookup(dirs, parent);
  }

  // ---------------------------------------------------------------------------
  // `process_summary_data`

  /** The link keys of the external and embedded flags. */
  const ExternalLinkKeys: seq<string> := ["external_links", "external_links_internet", "external_links_alias"]
  const EmbeddedLinkKeys: seq<string> := ["embedded_links", "embedded_links_internet", "embedded_links_asset"]

  /** The metadata fields the pass reads: the id, the suffix, the parent directory's name and the path's parts. */
  datatype Meta = Meta(id: string, suffix: string, parentName: string, parts: seq<string>)

  /** The eight fields the pass writes for one file. */
  datatype Summary = Summary(
    fileType: string,
    fileExtension: string,
    nodeType: Tag,
    hasContent: bool,
    hasBacklinks: bool,
    hasExternalLinks: bool,
    hasEmbeddedLinks: bool,
    isBacklinked: bool)

  /** `graph_content_data.get(name, {})`. */
  function ContentOf(content: map<string, Record>, name: string): (r: Record)
    ensures name !in content ==> r == map[]
    ensures name in content ==> r == content[name]
  {
    if name in content then content[name] else map[]
  }

  /**
   * The summary of one file: the link flags are only looked at when its
   * content record is non-empty, and the node type is only classified for a
   * journal or a page.
   */
  function SummaryOf(name: string, meta: Meta, content: map<string, Record>, dirs: Dirs,
                     alphanum: map<string, set<string>>): (s: Summary)
    ensures s.hasContent <==> ContentOf(content, name) != map[]
    ensures s.hasBacklinks <==> s.hasContent && CheckHasBacklinks(ContentOf(content, name))
    ensures s.hasExternalLinks <==> s.hasContent && (exists j ::
              0 <= j < |ExternalLinkKeys| && Truthy(Get(ContentOf(content, name), ExternalLinkKeys[j])))
    ensures s.hasEmbeddedLinks <==> s.hasContent && (exists j ::
              0 <= j < |EmbeddedLinkKeys| && Truthy(Get(ContentOf(content, name), EmbeddedLinkKeys[j])))
    ensures s.fileType == SrcFileType(dirs, meta.parentName, meta.parts)
    ensures s.fileExtension == meta.suffix
    ensures s.isBacklinked <==> meta.id in alphanum && exists ref :: ref in alphanum[meta.id] && RefersTo(ref, name)
    ensures s.nodeType == Other <==> s.fileType != "journal" && s.fileType != "page"
    ensures s.fileType in ["journal", "page"] ==>
              s.nodeType == Classify(s.hasContent, s.isBacklinked, false, s.hasBacklinks)
  {
    var info := ContentOf(content, name);
    var hasContent := info != map[];
    var hasBacklinks := hasContent && HasKeyWithValues(info, HasBacklinksKeys);
    var hasExternal := hasContent && HasKeyWithValues(info, ExternalLinkKeys);
    var hasEmbedded := hasContent && HasKeyWithValues(info, EmbeddedLinkKeys);
    var fileType := SrcFileType(dirs, meta.parentName, meta.parts);
    var backlinked := CheckIsBacklinkedPrefix(name, meta.id, alphanum);
    var nodeType := if fileType in ["journal", "page"] then ClassifyNoNamespace(hasContent, backlinked, hasBacklinks)
                    else Other;
    Summary(fileType, meta.suffix, nodeType, hasContent, hasBacklinks, hasExternal, hasEmbedded, backlinked)
  }

  /** A file with no content record, or an empty one, raises none of the content and link flags. */
  lemma NoContentNoLinks(name: string, meta: Meta, content: map<string, Record>, dirs: Dirs,
                         alphanum: map<string, set<string>>)
    requires name !in content || content[name] == map[]
    ensures var s := SummaryOf(name, meta, content, dirs, alphanum);
            !s.hasContent && !s.hasBacklinks && !s.hasExternalLinks && !s.hasEmbeddedLinks
  {
  }

  /** A journal or page without content is a leaf when another page links to it, and a true orphan otherwise. */
  lemma EmptyPageRole(name: string, meta: Meta, content: map<string, Record>, dirs: Dirs,
                      alphanum: map<string, set<string>>)
    requires name !in content || content[name] == map[]
    requires SrcFileType(dirs, meta.parentName, meta.parts) in ["journal", "page"]
    ensures var s := SummaryOf(name, meta, content, dirs, alphanum);
            s.nodeType == (if CheckIsBacklinkedPrefix(name, meta.id, alphanum) then Leaf else OrphanTrue)
  {
  }

  /** An asset is never given a role, whatever its content and links. */
  lemma AssetsHaveNoRole(name: string, meta: Meta, content: map<string, Record>, dirs: Dirs,
                         alphanum: map<string, set<string>>)
    requires meta.parentName == dirs.assets || dirs.assets in meta.parts
    ensures SummaryOf(name, meta, content, dirs, alphanum).fileType == "asset"
    ensures SummaryOf(name, meta, content, dirs, alphanum).nodeType == Other
  {
  }

  /**
   * `process_summary_data`: one summary per file of the metadata, in its
   * order, under the file's own name. The metadata is a dict, so its names
   * are distinct and the pairs form the summary dict.
   */
  method ProcessSummaryData(meta: seq<(string, Meta)>, content: map<string, Record>, dirs: Dirs,
                            alphanum: map<string, set<string>>) returns (r: seq<(string, Summary)>)
    ensures |r| == |meta|
    ensures forall i :: 0 <= i < |meta| ==>
              r[i].0 == meta[i].0 && r[i].1 == SummaryOf(meta[i].0, meta[i].1, content, dirs, alphanum)
  {
    r := [];
    var i := 0;
    while i < |meta|
      invariant 0 <= i <= |meta| && |r| == i
      invariant forall k :: 0 <= k < i ==>
                  r[k].0 == meta[k].0 && r[k].1 == SummaryOf(meta[k].0, meta[k].1, content, dirs, alphanum)
    {
      var (name, m) := meta[i];
      var info := ContentOf(content, name);
      var hasContent := info != map[];
      var hasBacklinks := false;
      var hasExternal := false;
      var hasEmbedded := false;
      if hasContent {
        hasBacklinks := HasKeyWithValues(info, HasBacklinksKeys);
        hasExternal := HasKeyWithValues(info, ExternalLinkKeys);
        hasEmbedded := HasKeyWithValues(info, EmbeddedLinkKeys);
      }
      var fileType := SrcFileType(dirs, m.parentName, m.parts);
      var backlinked := CheckIsBacklinkedPrefix(name, m.id, alphanum);
      var nodeType := Other;
      if fileType in ["journal", "page"] {
        nodeType := ClassifyNoNamespace(hasContent, backlinked, hasBacklinks);
      }
      r := r + [(name, Summary(fileType, m.suffix, nodeType, hasContent, hasBacklinks, hasExternal, hasEmbedded,
                               backlinked))];
      i := i + 1;
    }
  }
}
