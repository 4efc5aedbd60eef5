/**
 * The name data of a file, `logseq_file/name.py`: the processed page name,
 * the file type read from the directories, the namespace fields derived from
 * the "/"-separated parts of the name, and the ordinal day suffix.
 */
module FileName {
  import opened Wrappers
  import opened PyStr
  import opened PyInt

  /** The namespace separator in page names, and the prefix of highlight (HLS) pages. */
  const NsSep: char := '/'
  const HlsPrefix: string := "hls__"

  /** The configured directory names (`DIR_ASSETS`, `DIR_DRAWS`, `DIR_JOURNALS`, `DIR_PAGES`, `DIR_WHITEBOARDS`). */
  datatype Dirs = Dirs(assets: string, draws: string, journals: string, pages: string, whiteboards: string)

  // ---------------------------------------------------------------------------
  // `str.strip(chars)`, `str.rstrip(chars)`, `str.endswith`

  /** `s.rstrip(chars)`: the trailing characters that occur in `chars` removed. */
  function RStripChars(s: string, chars: string): (r: string)
    ensures |r| <= |s| && r == s[..|r|]
    ensures r == [] || r[|r| - 1] !in chars
    ensures forall i :: |r| <= i < |s| ==> s[i] in chars
    decreases |s|
  {
    if s != [] && s[|s| - 1] in chars then RStripChars(s[..|s| - 1], chars) else s
  }

  /** `s.lstrip(chars)`. */
  function LStripChars(s: string, chars: string): (r: string)
    ensures |r| <= |s| && r == s[|s| - |r|..]
    ensures r == [] || r[0] !in chars
    ensures forall i :: 0 <= i < |s| - |r| ==> s[i] in chars
    decreases |s|
  {
    if s != [] && s[0] in chars then LStripChars(s[1..], chars) else s
  }

  /** `s.strip(chars)`. */
  function StripChars(s: string, chars: string): string
  {
    RStripChars(LStripChars(s, chars), chars)
  }

  predicate EndsWith(s: string, p: string)
  {
    |p| <= |s| && s[|s| - |p|..] == p
  }

  /** `s.replace(p, t, 1)`: only the first occurrence. */
  function ReplaceFirst(s: string, p: string, t: string): string
    requires p != []
  {
    var k := Find(s, p);
    if k == |s| then s else s[..k] + t + s[k + |p|..]
  }

  /** A text that shares no character with `p`, put between two texts without `p`, does not create one. */
  lemma NoneAcross(front: string, t: string, tail: string, p: string)
    requires p != [] && t != []
    requires forall j :: 0 <= j < |t| ==> t[j] !in p
    requires !Contains(front, p) && !Contains(tail, p)
    ensures !Contains(front + t + tail, p)
  {
    var r := front + t + tail;
    var k := |front|;
    forall i | 0 <= i <= |r|
      ensures !OccursAt(r, p, i)
    {
      if i + |p| <= |r| {
        if i + |p| <= k {
          assert r[i..i + |p|] == front[i..i + |p|];
          assert !OccursAt(front, p, i);
        } else if i < k {
          assert r[i..i + |p|][k - i] == t[0];
          assert t[0] !in p;
        } else if i < k + |t| {
          assert r[i..i + |p|][0] == t[i - k];
          assert t[i - k] !in p;
        } else {
          assert r[i..i + |p|] == tail[i - k - |t|..i - k - |t| + |p|];
          assert !OccursAt(tail, p, i - k - |t|);
        }
      }
    }
  }

  /**
   * Replacing every occurrence of `p` by a non-empty text that shares no
   * character with `p` leaves no occurrence of `p`.
   */
  lemma {:induction false} ReplaceLeavesNone(s: string, p: string, t: string)
    requires p != [] && t != []
    requires forall j :: 0 <= j < |t| ==> t[j] !in p
    ensures !Contains(ReplaceAll(s, p, t), p)
    decreases |s|
  {
    var k := Find(s, p);
    if k < |s| {
      var rest := s[k + |p|..];
      ReplaceLeavesNone(rest, p, t);
      var front := s[..k];
      forall i | 0 <= i <= |front|
        ensures !OccursAt(front, p, i)
      {
        if i + |p| <= k {
          assert front[i..i + |p|] == s[i..i + |p|];
          assert !OccursAt(s, p, i);
        }
      }
      NoneAcross(front, t, ReplaceAll(rest, p, t), p);
      assert ReplaceAll(s, p, t) == front + t + ReplaceAll(rest, p, t);
    } else {
      assert ReplaceAll(s, p, t) == s;
    }
  }

  // ---------------------------------------------------------------------------
  // The ordinal day suffix

  /** The suffix `add_ordinal_suffix_to_day_of_month` picks for a day number. */
  function OrdinalSuffix(day: int): string
  {
    if 11 <= day <= 13 then "th"
    else if day % 10 == 1 then "st"
    else if day % 10 == 2 then "nd"
    else if day % 10 == 3 then "rd"
    else "th"
  }

  /** `add_ordinal_suffix_to_day_of_month(day)`: the day as written followed by its suffix. */
  function AddOrdinalSuffixToDayOfMonth(day: int): (r: string)
    ensures |r| >= 3 && ParseInt(r[..|r| - 2]) == Ok(day)
    ensures r[|r| - 2..] in {"st", "nd", "rd", "th"}
  {
    ParseIntToString(day);
    var r := IntToString(day) + OrdinalSuffix(day);
    assert r[..|r| - 2] == IntToString(day);
    r
  }

  /** The English ordinal suffix, read from the last two decimal digits. */
  function EnglishSuffix(n: nat): string
  {
    if (n % 100) / 10 == 1 then "th"
    else if n % 10 == 1 then "st"
    else if n % 10 == 2 then "nd"
    else if n % 10 == 3 then "rd"
    else "th"
  }

  /** On the days of a month the rule is the English ordinal: 1st, 2nd, 3rd, 11th-13th, 21st, 22nd, 23rd, 31st. */
  lemma OrdinalIsEnglish(day: int)
    requires 1 <= day <= 31
    ensures OrdinalSuffix(day) == EnglishSuffix(day)
  {
  }

  /** Only the days 11 to 13 are special-cased, so 111 becomes "111st". */
  lemma OrdinalOnlyCoversDays()
    ensures OrdinalSuffix(111) == "st" && EnglishSuffix(111) == "th"
  {
  }

  // ---------------------------------------------------------------------------
  // File type

  /**
   * The directory lookup `{assets: "asset", ...}.get(parent, "other")`: when
   * two configured directories have the same name, the later entry of the
   * dictionary display wins.
   */
  function ParentType(dirs: Dirs, parent: string): string
  {
    if parent == dirs.whiteboards then "whiteboard"
    else if parent == dirs.pages then "page"
    else if parent == dirs.journals then "journal"
    else if parent == dirs.draws then "draw"
    else if parent == dirs.assets then "asset"
    else "other"
  }

  predicate DirsDistinct(dirs: Dirs)
  {
    var ds := [dirs.assets, dirs.draws, dirs.journals, dirs.pages, dirs.whiteboards];
    forall i, j :: 0 <= i < j < |ds| ==> ds[i] != ds[j]
  }

  predicate IsDir(dirs: Dirs, parent: string)
  {
    parent in {dirs.assets, dirs.draws, dirs.journals, dirs.pages, dirs.whiteboards}
  }

  /** The lookup gives a directory's own type, and "other" exactly for a parent that is no configured directory. */
  lemma ParentTypeLookup(dirs: Dirs, parent: string)
    ensures ParentType(dirs, parent) == "other" <==> !IsDir(dirs, parent)
    ensures DirsDistinct(dirs) ==>
              (parent == dirs.assets ==> ParentType(dirs, parent) == "asset")
              && (parent == dirs.draws ==> ParentType(dirs, parent) == "draw")
              && (parent == dirs.journals ==> ParentType(dirs, parent) == "journal")
              && (parent == dirs.pages ==> ParentType(dirs, parent) == "page")
              && (parent == dirs.whiteboards ==> ParentType(dirs, parent) == "whiteboard")
  {
    if DirsDistinct(dirs) {
      var ds := [dirs.assets, dirs.draws, dirs.journals, dirs.pages, dirs.whiteboards];
      assert ds[0] != ds[1] && ds[0] != ds[2] && ds[0] != ds[3] && ds[0] != ds[4];
      assert ds[1] != ds[2] && ds[1] != ds[3] && ds[1] != ds[4];
      assert ds[2] != ds[3] && ds[2] != ds[4] && ds[3] != ds[4];
    }
  }

  /**
   * `determine_file_type`: the parent directory's type, else the first of
   * "assets", "draws", the journals, pages and whiteboards directories found
   * among the path's parts, as a `sub_` type, else "other".
   */
  function DetermineFileType(dirs: Dirs, parent: string, parts: seq<string>): string
  {
    var t := ParentType(dirs, parent);
    if t != "other" then t
    else if "assets" in parts then "sub_asset"
    else if "draws" in parts then "sub_draw"
    else if dirs.journals in parts then "sub_journal"
    else if dirs.pages in parts then "sub_page"
    else if dirs.whiteboards in parts then "sub_whiteboard"
    else "other"
  }

  /** A file directly in a configured directory gets that directory's type, never "other". */
  lemma FileTypeByParent(dirs: Dirs, parent: string, parts: seq<string>)
    requires IsDir(dirs, parent)
    ensures DetermineFileType(dirs, parent, parts) == ParentType(dirs, parent) != "other"
  {
    ParentTypeLookup(dirs, parent);
  }

  /**
   * Elsewhere the first of "assets", "draws", the journals, pages and
   * whiteboards directories among the parts decides, and "other" means none
   * of them is there.
   */
  lemma FileTypeBySubdirectory(dirs: Dirs, parent: string, parts: seq<string>)
    requires !IsDir(dirs, parent)
    ensures var r := DetermineFileType(dirs, parent, parts);
            (r == "sub_asset" <==> "assets" in parts)
            && (r == "sub_draw" <==> "assets" !in parts && "draws" in parts)
            && (r == "sub_journal" <==> "assets" !in parts && "draws" !in parts && dirs.journals in parts)
            && (r == "sub_page" <==> "assets" !in parts && "draws" !in parts && dirs.journals !in parts && dirs.pages in parts)
            && (r == "sub_whiteboard" <==> "assets" !in parts && "draws" !in parts && dirs.journals !in parts
                                            && dirs.pages !in parts && dirs.whiteboards in parts)
            && (r == "other" <==> "assets" !in parts && "draws" !in parts && dirs.journals !in parts
                                   && dirs.pages !in parts && dirs.whiteboards !in parts)
  {
    ParentTypeLookup(dirs, parent);
  }

  // ---------------------------------------------------------------------------
  // Namespace name data

  /** `{part: level for level, part in enumerate(parts, start=base)}`. */
  function PartLevels(parts: seq<string>, base: int): map<string, int>
    decreases |parts|
  {
    if parts == [] then map[]
    else PartLevels(parts[..|parts| - 1], base)[parts[|parts| - 1] := base + |parts| - 1]
  }

  /** Every part is a key, mapped to its last position (counted from `base`). */
  lemma {:induction false} PartLevelsLast(parts: seq<string>, base: int, k: string)
    ensures k in PartLevels(parts, base) <==> k in parts
    ensures k in PartLevels(parts, base) ==>
              var j := PartLevels(parts, base)[k] - base;
              0 <= j < |parts| && parts[j] == k && forall j' :: j < j' < |parts| ==> parts[j'] != k
    decreases |parts|
  {
    if parts != [] {
      var init := parts[..|parts| - 1];
      PartLevelsLast(init, base, k);
      assert parts == init + [parts[|parts| - 1]];
      assert forall j :: 0 <= j < |init| ==> init[j] == parts[j];
    }
  }

  /** The attributes `get_namespace_name_data` may set; `None` for one not set. */
  datatype NsFields = NsFields(
    parts: Option<map<string, int>>,
    level: Option<int>,
    root: Option<string>,
    parent: Option<string>,
    parentFull: Option<string>,
    stem: Option<string>)

  const NoNsFields := NsFields(None, None, None, None, None, None)

  /** A string attribute is only set when it is truthy (non-empty). */
  function IfTruthy(s: string): (r: Option<string>)
    ensures r.Some? <==> s != []
    ensures r.Some? ==> r.value == s
  {
    if s == [] then None else Some(s)
  }

  /**
   * The namespace name data of a name: the parts numbered from 1, the level
   * (number of parts), the root (first part), the parent (the part before
   * the stem when there are more than two parts, else the root), the full
   * parent (all but the last part, joined) and the stem (last part). The
   * part map and the level are never empty or zero; the strings are only set
   * when non-empty.
   */
  function NamespaceNameData(name: string): NsFields
  {
    var ps := Split(name, NsSep);
    var n := |ps|;
    NsFields(
      Some(PartLevels(ps, 1)),
      Some(n),
      IfTruthy(ps[0]),
      IfTruthy(if n > 2 then ps[n - 2] else ps[0]),
      IfTruthy(Join(ps[..n - 1], NsSep)),
      IfTruthy(ps[n - 1]))
  }

  /** `setattr` for every field that is set: the others keep their previous value. */
  function Overlay(prev: NsFields, next: NsFields): NsFields
  {
    NsFields(
      if next.parts.Some? then next.parts else prev.parts,
      if next.level.Some? then next.level else prev.level,
      if next.root.Some? then next.root else prev.root,
      if next.parent.Some? then next.parent else prev.parent,
      if next.parentFull.Some? then next.parentFull else prev.parentFull,
      if next.stem.Some? then next.stem else prev.stem)
  }

  /**
   * For a namespaced name: the level is the number of parts, at least two;
   * the root is what comes before the first "/" (unset for a leading "/");
   * the full parent and the stem put back together with "/" give the name;
   * and the part map numbers each part by its last position, from 1.
   */
  lemma NamespaceFields(name: string, k: string)
    requires HasChar(name, NsSep)
    ensures var r := NamespaceNameData(name);
            var ps := Split(name, NsSep);
            r.level == Some(|ps|) && |ps| >= 2
            && (r.root.None? <==> name[0] == NsSep)
            && (r.root.Some? ==> StartsWith(name, r.root.value + [NsSep]))
            && Join(ps[..|ps| - 1], NsSep) + [NsSep] + ps[|ps| - 1] == name
            && (k in r.parts.value <==> k in ps)
  {
    var ps := Split(name, NsSep);
    SplitCountsSeparators(name, NsSep);
    Rebuild(name);
    FirstPart(name);
    PartLevelsLast(ps, 1, k);
  }

  /** The full parent, a "/", and the stem give back the name. */
  lemma Rebuild(name: string)
    requires |Split(name, NsSep)| >= 2
    ensures var ps := Split(name, NsSep);
            Join(ps[..|ps| - 1], NsSep) + [NsSep] + ps[|ps| - 1] == name
  {
    var ps := Split(name, NsSep);
    JoinSplit(name, NsSep);
    JoinSnoc(ps[..|ps| - 1], ps[|ps| - 1], NsSep);
    InitLast(ps);
  }

  lemma InitLast<T>(xs: seq<T>)
    requires |xs| >= 1
    ensures xs[..|xs| - 1] + [xs[|xs| - 1]] == xs
  {
  }

  /** The first part is the text before the first "/". */
  lemma FirstPart(name: string)
    requires HasChar(name, NsSep)
    ensures var p0 := Split(name, NsSep)[0];
            |p0| < |name| && name[..|p0| + 1] == p0 + [NsSep] && (p0 == [] <==> name[0] == NsSep)
  {
    var k0 := FindChar(name, NsSep);
    assert Split(name, NsSep)[0] == name[..k0];
    assert name[..k0 + 1] == name[..k0] + [NsSep];
  }

  /** The parent is the part just before the stem when there are more than two parts, otherwise the root. */
  lemma NamespaceParent(name: string)
    requires HasChar(name, NsSep)
    ensures var r := NamespaceNameData(name);
            var ps := Split(name, NsSep);
            (|ps| > 2 ==> r.parent == IfTruthy(ps[|ps| - 2]))
            && (|ps| <= 2 ==> r.parent == r.root)
  {
  }

  /** A name without "/" gets no namespace data at all when the flag is false. */
  lemma NotNamespaceNoOp(prev: NsFields)
    ensures ApplyNameData(prev, false, []) == prev
  {
  }

  /** `get_namespace_name_data`: nothing unless the file is flagged as a namespace. */
  function ApplyNameData(prev: NsFields, isNamespace: bool, name: string): NsFields
  {
    if !isNamespace then prev else Overlay(prev, NamespaceNameData(name))
  }

  // ---------------------------------------------------------------------------
  // The processed name

  /** How a journal file's date is read: the day of the month and the lower-cased page title, or `None` on `ValueError`. */
  type DateReader = string -> Option<(int, string)>

  /** The settings the name processing reads from the configuration. */
  datatype NameConfig = NameConfig(
    fileSep: string,
    dirs: Dirs,
    unquote: string -> string,
    readDate: DateReader,
    ordinalTitle: bool)

  /**
   * The page title of a journal: the dated title with, when the title format
   * asks for ordinals, the first occurrence of the day number replaced by
   * the day with its suffix, and every apostrophe removed.
   */
  function JournalTitle(day: int, base: string, ordinal: bool): (r: string)
    ensures !Contains(r, "'")
  {
    var title := if ordinal then ReplaceFirst(base, IntToString(day), AddOrdinalSuffixToDayOfMonth(day)) else base;
    RemoveAllLeavesNone(title, "'");
    RemoveAll(title, "'")
  }

  /** `_process_logseq_journal_key`: the page title, or "" when the date does not parse. */
  function JournalKey(name: string, cfg: NameConfig): string
  {
    match cfg.readDate(name)
    case Some((day, base)) => JournalTitle(day, base, cfg.ordinalTitle)
    case None => ""
  }

  /**
   * `process_logseq_filename`: the name with the file separator's
   * characters stripped at both ends, then the journal title for a file in
   * the journals directory, else the unquoted name with every file separator
   * turned into "/".
   */
  function ProcessLogseqFilename(name: string, parent: string, cfg: NameConfig): string
  {
    var n := StripChars(name, cfg.fileSep);
    if parent == cfg.dirs.journals then JournalKey(n, cfg)
    else ReplaceAll(cfg.unquote(n), cfg.fileSep, [NsSep])
  }

  /** Outside the journals directory no file separator survives, so every one becomes a namespace level. */
  lemma ProcessedNameHasNoSeparator(name: string, parent: string, cfg: NameConfig)
    requires parent != cfg.dirs.journals && cfg.fileSep != [] && NsSep !in cfg.fileSep
    ensures !Contains(ProcessLogseqFilename(name, parent, cfg), cfg.fileSep)
  {
    ReplaceLeavesNone(cfg.unquote(StripChars(name, cfg.fileSep)), cfg.fileSep, [NsSep]);
  }

  /** A journal's name has no apostrophe, and is "" when its date does not parse. */
  lemma ProcessedJournalName(name: string, parent: string, cfg: NameConfig)
    requires parent == cfg.dirs.journals
    ensures !Contains(ProcessLogseqFilename(name, parent, cfg), "'")
    ensures cfg.readDate(StripChars(name, cfg.fileSep)).None? ==> ProcessLogseqFilename(name, parent, cfg) == ""
  {
    var n := StripChars(name, cfg.fileSep);
    if cfg.readDate(n).None? {
      assert !OccursAt("", "'", 0);
    }
  }

  // ---------------------------------------------------------------------------
  // The object

  /** The attributes of a `LogseqFilename` that its methods read or set. */
  datatype NameState = NameState(
    name: string,
    parent: string,
    parts: seq<string>,
    fileType: string,
    isNamespace: bool,
    isHls: bool,
    ns: NsFields)

  /** `check_is_namespace`: the name has a "/". */
  predicate IsNamespaceName(name: string)
  {
    HasChar(name, NsSep)
  }

  /** `check_is_hls`: the name starts with "hls__". */
  predicate IsHlsName(name: string)
  {
    StartsWith(name, HlsPrefix)
  }

  /**
   * What `LogseqFile.init_file_data` does to the name object: it calls
   * `determine_file_type` and `process_logseq_filename` and drops their
   * results, then applies `get_namespace_name_data`, which therefore sees
   * the flag as constructed.
   */
  function InitAsWritten(s: NameState): NameState
  {
    s.(ns := ApplyNameData(s.ns, s.isNamespace, s.name))
  }

  /** The evidently intended initialisation: the results are stored before the namespace data is taken. */
  function InitIntended(s: NameState, cfg: NameConfig): NameState
  {
    var name := ProcessLogseqFilename(s.name, s.parent, cfg);
    var s1 := s.(fileType := DetermineFileType(cfg.dirs, s.parent, s.parts), name := name,
                 isNamespace := IsNamespaceName(name), isHls := IsHlsName(name));
    s1.(ns := ApplyNameData(s1.ns, s1.isNamespace, s1.name))
  }

  /** A freshly constructed name object: no file type, no flags, no namespace data. */
  predicate Fresh(s: NameState)
  {
    s.fileType == "" && !s.isNamespace && !s.isHls && s.ns == NoNsFields
  }

  /** As written, no file ever gets namespace data, a file type or the namespace flag. */
  lemma InitAsWrittenLosesNameData(s: NameState)
    requires Fresh(s)
    ensures InitAsWritten(s) == s
  {
  }

  /** As intended, a page whose processed name has a "/" is a namespace with its level set. */
  lemma InitIntendedSetsNamespace(s: NameState, cfg: NameConfig)
    requires Fresh(s)
    requires IsNamespaceName(ProcessLogseqFilename(s.name, s.parent, cfg))
    ensures var t := InitIntended(s, cfg);
            t.isNamespace && t.ns.level == Some(|Split(t.name, NsSep)|) && t.ns.level.value >= 2
            && t.fileType == DetermineFileType(cfg.dirs, s.parent, s.parts)
  {
    var name := ProcessLogseqFilename(s.name, s.parent, cfg);
    NamespaceFields(name, "");
  }

  /** `LogseqFilename`: the name, directory and parts of a file, and the attributes derived from them. */
  class LogseqFilename {
    var originalName: string
    var name: string
    var parent: string
    var suffix: string
    var parts: seq<string>
    var fileType: string
    var isNamespace: bool
    var isHls: bool
    var ns: NsFields

    function State(): NameState
      reads this
    {
      NameState(name, parent, parts, fileType, isNamespace, isHls, ns)
    }

    /** `__post_init__`: the stem as the original name, and lower-cased as the name; the parent lower-cased. */
    constructor(stem: string, parentName: string, fileSuffix: string, pathParts: seq<string>)
      ensures originalName == stem && name == Lower(stem) && parent == Lower(parentName)
      ensures suffix == Lower(fileSuffix) && parts == pathParts
      ensures Fresh(State())
    {
      originalName := stem;
      name := Lower(stem);
      parent := Lower(parentName);
      suffix := Lower(fileSuffix);
      parts := pathParts;
      fileType := "";
      isNamespace := false;
      isHls := false;
      ns := NoNsFields;
    }

    /** `get_namespace_name_data`. */
    method GetNamespaceNameData()
      modifies this`ns
      ensures ns == ApplyNameData(old(ns), isNamespace, name)
    {
      if !isNamespace {
        return;
      }
      var data := NamespaceNameData(name);
      ns := Overlay(ns, data);
    }

    /** `init_file_data`'s part on the name object, as written: two results are dropped. */
    method InitFileData(cfg: NameConfig)
      modifies this`ns
      ensures State() == InitAsWritten(old(State()))
    {
      var _ := DetermineFileType(cfg.dirs, parent, parts);
      var _ := ProcessLogseqFilename(name, parent, cfg);
      GetNamespaceNameData();
    }

    /** The same part with the results stored, as the corrected model uses it. */
    method InitNameData(cfg: NameConfig)
      modifies this`fileType, this`name, this`isNamespace, this`isHls, this`ns
      ensures fileType == DetermineFileType(cfg.dirs, parent, parts)
      ensures name == ProcessLogseqFilename(old(name), parent, cfg)
      ensures isNamespace == IsNamespaceName(name) && isHls == IsHlsName(name)
      ensures ns == ApplyNameData(old(ns), isNamespace, name)
    {
      fileType := DetermineFileType(cfg.dirs, parent, parts);
      name := ProcessLogseqFilename(name, parent, cfg);
      isNamespace := IsNamespaceName(name);
      isHls := IsHlsName(name);
      GetNamespaceNameData();
    }
  }
}
