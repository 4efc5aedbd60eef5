/**
 * The name object of the older single-file package,
 * `logseq_analyzer/logseq_filename.py`: the page name processed from the
 * file's stem and parent directory, the namespace flag and fields taken from
 * the processed name, and the file type of the parent directory.
 *
 * It differs from the name object of `logseq_file/name.py` in three ways:
 * only a trailing file separator is stripped, and only when the name ends
 * with the whole separator; a journal name whose date does not parse is
 * kept; and the file type is the bare directory lookup, with no `sub_`
 * types. Its initialisation also stores every result, so a namespaced page
 * does get its namespace fields.
 */
module LegacyFilename {
  import opened Wrappers
  import opened PyStr
  import opened FileName

  /**
   * The first step of `process_logseq_filename`: when the name ends with the
   * file separator, every trailing character of the separator is stripped;
   * the front of the name is never touched.
   */
  function StripTrailingSeparator(name: string, sep: string): (r: string)
    ensures |r| <= |name| && r == name[..|r|]
    ensures !EndsWith(name, sep) ==> r == name
    ensures EndsWith(name, sep) ==> r == [] || r[|r| - 1] !in sep
    ensures EndsWith(name, sep) ==> forall i :: |r| <= i < |name| ==> name[i] in sep
  {
    if EndsWith(name, sep) then RStripChars(name, sep) else name
  }

  /** `process_logseq_journal_key`: the page title, or the name unchanged when its date does not parse. */
  function LegacyJournalKey(name: string, cfg: NameConfig): (r: string)
    ensures cfg.readDate(name).None? ==> r == name
    ensures cfg.readDate(name).Some? ==> !Contains(r, "'")
  {
    match cfg.readDate(name)
    case Some((day, base)) => JournalTitle(day, base, cfg.ordinalTitle)
    case None => name
  }

  /**
   * `process_logseq_filename`: the trailing separator stripped, then the
   * journal title for a file in the journals directory, else the unquoted
   * name with every file separator turned into "/".
   */
  function LegacyProcessName(name: string, parent: string, cfg: NameConfig): (r: string)
    ensures parent == cfg.dirs.journals && cfg.readDate(StripTrailingSeparator(name, cfg.fileSep)).None? ==>
              r == StripTrailingSeparator(name, cfg.fileSep)
  {
    var n := StripTrailingSeparator(name, cfg.fileSep);
    if parent == cfg.dirs.journals then LegacyJournalKey(n, cfg)
    else
      ReplaceAll(cfg.unquote(n), cfg.fileSep, [NsSep])
  }

  /** Outside the journals directory no file separator survives, as in the newer package. */
  lemma LegacyNameHasNoSeparator(name: string, parent: string, cfg: NameConfig)
    requires parent != cfg.dirs.journals && cfg.fileSep != [] && NsSep !in cfg.fileSep
    ensures !Contains(LegacyProcessName(name, parent, cfg), cfg.fileSep)
  {
    ReplaceLeavesNone(cfg.unquote(StripTrailingSeparator(name, cfg.fileSep)), cfg.fileSep, [NsSep]);
  }

  /**
   * The two packages part ways on a separator at the front of a page name:
   * with the separator "___", the page file `___a` is the namespaced "/a" in
   * the older package and "a" in the newer one.
   */
  lemma LeadingSeparatorKept(parent: string, cfg: NameConfig)
    requires cfg.fileSep == "___" && parent != cfg.dirs.journals
    requires cfg.unquote("___a") == "___a" && cfg.unquote("a") == "a"
    ensures LegacyProcessName("___a", parent, cfg) == "/a"
    ensures ProcessLogseqFilename("___a", parent, cfg) == "a"
  {
    assert !EndsWith("___a", "___");
    assert OccursAt("___a", "___", 0);
    assert ReplaceFound("a", "___", "/") == "a";
    assert ReplaceFound("___a", "___", "/") == "/a";
    assert LStripChars("_a", "___") == "a";
    assert LStripChars("___a", "___") == "a";
    assert RStripChars("a", "___") == "a";
  }

  /**
   * And on a partial separator at the end: `a_` does not end with the whole
   * separator, so it keeps its underscore in the older package, while the
   * newer one strips it.
   */
  lemma PartialSeparatorKept(parent: string, cfg: NameConfig)
    requires cfg.fileSep == "___" && parent != cfg.dirs.journals
    requires cfg.unquote("a_") == "a_" && cfg.unquote("a") == "a"
    ensures LegacyProcessName("a_", parent, cfg) == "a_"
    ensures ProcessLogseqFilename("a_", parent, cfg) == "a"
  {
    assert !EndsWith("a_", "___");
    assert ReplaceFound("a_", "___", "/") == "a_";
    assert ReplaceFound("a", "___", "/") == "a";
    assert LStripChars("a_", "___") == "a_";
    assert RStripChars("a_", "___") == "a";
  }

  /**
   * A journal whose date does not parse keeps its (stripped) name in the
   * older package, where the newer one gives the empty name.
   */
  lemma UnparsedJournalKept(name: string, cfg: NameConfig)
    requires cfg.readDate(StripTrailingSeparator(name, cfg.fileSep)).None?
    requires cfg.readDate(StripChars(name, cfg.fileSep)).None?
    ensures LegacyProcessName(name, cfg.dirs.journals, cfg) == StripTrailingSeparator(name, cfg.fileSep)
    ensures ProcessLogseqFilename(name, cfg.dirs.journals, cfg) == ""
  {
    ProcessedJournalName(name, cfg.dirs.journals, cfg);
  }

  /**
   * `determine_file_type` here is the bare lookup of the parent directory:
   * it never gives a `sub_` type, agrees with the newer rule whenever the
   * parent is a configured directory, and gives "other" where the newer rule
   * may still find a directory among the path's parts.
   */
  lemma FileTypeIsParentLookup(dirs: Dirs, parent: string, parts: seq<string>)
    ensures ParentType(dirs, parent) in ["asset", "draw", "journal", "page", "whiteboard", "other"]
    ensures ParentType(dirs, parent) != "other" ==>
              DetermineFileType(dirs, parent, parts) == ParentType(dirs, parent)
    ensures ParentType(dirs, parent) == "other" ==>
              DetermineFileType(dirs, parent, parts)
                in ["sub_asset", "sub_draw", "sub_journal", "sub_page", "sub_whiteboard", "other"]
    ensures ParentType(dirs, parent) == "other" <==> !IsDir(dirs, parent)
  {
    ParentTypeLookup(dirs, parent);
  }

  /** `LogseqFilename` of the older package. */
  class LogseqFilename {
    var originalName: string
    var name: string
    var parent: string
    var suffix: Option<string>
    var parts: seq<string>
    var isNamespace: bool
    var fileType: string
    var ns: NsFields

    /**
     * `__post_init__`: the lower-cased stem processed as a page name, the
     * lower-cased parent and suffix (`None` for a file without one), the
     * namespace flag of the processed name, the parent's file type, and the
     * namespace fields of the processed name.
     */
    constructor(stem: string, parentName: string, fileSuffix: string, pathParts: seq<string>, cfg: NameConfig)
      ensures originalName == stem && parent == Lower(parentName) && parts == pathParts
      ensures suffix == (if fileSuffix == [] then None else Some(Lower(fileSuffix)))
      ensures name == LegacyProcessName(Lower(stem), Lower(parentName), cfg)
      ensures isNamespace <==> HasChar(name, NsSep)
      ensures fileType == ParentType(cfg.dirs, parent)
      ensures ns == ApplyNameData(NoNsFields, isNamespace, name)
    {
      originalName := stem;
      name := Lower(stem);
      parent := Lower(parentName);
      suffix := if fileSuffix == [] then None else Some(Lower(fileSuffix));
      parts := pathParts;
      isNamespace := false;
      fileType := "";
      ns := NoNsFields;
      new;
      ProcessLogseqFilename(cfg);
      isNamespace := HasChar(name, NsSep);
      fileType := DetermineFileType(cfg.dirs);
      GetNamespaceNameData();
    }

    /** `process_logseq_filename`: only the name changes. */
    method ProcessLogseqFilename(cfg: NameConfig)
      modifies this`name
      ensures name == LegacyProcessName(old(name), parent, cfg)
    {
      if EndsWith(name, cfg.fileSep) {
        name := RStripChars(name, cfg.fileSep);
      }
      if parent == cfg.dirs.journals {
        name := LegacyJournalKey(name, cfg);
      } else {
        name := ReplaceAll(cfg.unquote(name), cfg.fileSep, [NsSep]);
      }
    }

    /** `get_namespace_name_data`: the fields of the name when it is a namespace, else nothing. */
    method GetNamespaceNameData()
      modifies this`ns
      ensures ns == ApplyNameData(old(ns), isNamespace, name)
    {
      if isNamespace {
        ns := Overlay(ns, NamespaceNameData(name));
      }
    }

    /** `determine_file_type`: the parent's type, "other" for a parent that is no configured directory. */
    function DetermineFileType(dirs: Dirs): (r: string)
      reads this
      ensures r == "other" <==> !IsDir(dirs, parent)
      ensures r != "other" ==> r == FileName.DetermineFileType(dirs, parent, parts)
    {
      ParentTypeLookup(dirs, parent);
      ParentType(dirs, parent)
    }
  }

  /**
   * Unlike the newer initialisation, a page whose processed name has a "/"
   * is flagged as a namespace and gets its level, at least two.
   */
  lemma LegacyNamespaceLevel(name: string)
    requires HasChar(name, NsSep)
    ensures ApplyNameData(NoNsFields, HasChar(name, NsSep), name).level == Some(|Split(name, NsSep)|)
    ensures |Split(name, NsSep)| >= 2
  {
    NamespaceFields(name, "");
  }
}
