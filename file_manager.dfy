/**
  * The file explorer's tree of entries: folding and unfolding folders, adding
  * an entry from the "new file" form, and choosing each entry's icon.
  */
module FileManager {
  import opened Wrappers
  import opened Text

  /** The `type` field: `"file"` or `"folder"`. */
  datatype Kind = File | Folder

  /**
    * One entry of the tree. A missing `expanded` flag reads as false; a missing
    * `children` list is `None`.
    */
  datatype Entry = Entry(id: int, name: string, kind: Kind, expanded: bool, children: Option<seq<Entry>>)

  /** The entry with `expanded` negated and everything else kept. */
  function Flip(e: Entry): Entry {
    e.(expanded := !e.expanded)
  }

  /** A child of a folder that is not itself toggled: flipped when its id matches, kept otherwise. */
  function ToggleChild(c: Entry, id: int): Entry {
    if c.id == id then Flip(c) else c
  }

  /** `children.map(...)` over one list of children. */
  function ToggleChildren(cs: seq<Entry>, id: int): (r: seq<Entry>)
    ensures |r| == |cs|
    ensures forall i :: 0 <= i < |cs| ==> r[i] == ToggleChild(cs[i], id)
  {
    seq(|cs|, i requires 0 <= i < |cs| => ToggleChild(cs[i], id))
  }

  /**
    * One top-level entry: flipped when its id matches, with its children
    * untouched; otherwise a list of children, when there is one, gets its
    * matching children flipped.
    */
  function ToggleEntry(e: Entry, id: int): Entry {
    if e.id == id then Flip(e)
    else if e.children.Some? then e.(children := Some(ToggleChildren(e.children.value, id)))
    else e
  }

  /**
    * `toggleFolder`: the `map` over the top-level entries. A top-level entry
    * with the id has only its flag negated, and one without the id keeps its
    * flag.
    */
  function ToggleFolder(files: seq<Entry>, id: int): (r: seq<Entry>)
    ensures |r| == |files|
    ensures forall i :: 0 <= i < |files| ==> r[i] == ToggleEntry(files[i], id)
    ensures forall i :: 0 <= i < |files| && files[i].id == id ==> r[i] == files[i].(expanded := !files[i].expanded)
    ensures forall i :: 0 <= i < |files| && files[i].id != id ==> r[i].expanded == files[i].expanded
  {
    seq(|files|, i requires 0 <= i < |files| => ToggleEntry(files[i], id))
  }

  /** Same id, name and kind, and the same number of children. */
  predicate SameShape(a: Entry, b: Entry) {
    a.id == b.id && a.name == b.name && a.kind == b.kind
    && a.children.Some? == b.children.Some?
    && (a.children.Some? ==> |a.children.value| == |b.children.value|)
  }

  /**
    * Toggling keeps the number and order of the top-level entries and each
    * entry's id, name, kind and number of children, and those of each child too.
    */
  lemma ToggleKeepsShape(files: seq<Entry>, id: int)
    ensures var r := ToggleFolder(files, id);
      |r| == |files|
      && forall i :: 0 <= i < |files| ==>
           SameShape(r[i], files[i])
           && (files[i].children.Some? ==>
                 forall j :: 0 <= j < |files[i].children.value| ==>
                   SameShape(r[i].children.value[j], files[i].children.value[j]))
  {
  }

  /**
    * A top-level entry with the id has only its flag negated; one without it
    * keeps its flag and, if it has children, has exactly the matching children
    * flipped; one without the id and without children is returned unchanged.
    */
  lemma ToggleTopLevel(files: seq<Entry>, id: int, i: int)
    requires 0 <= i < |files|
    ensures var e, r := files[i], ToggleFolder(files, id)[i];
      (e.id == id ==> r == e.(expanded := !e.expanded))
      && (e.id != id && e.children.None? ==> r == e)
      && (e.id != id && e.children.Some? ==>
            r.expanded == e.expanded && r.children.Some?
            && |r.children.value| == |e.children.value|
            && forall j :: 0 <= j < |e.children.value| ==>
                 var c := e.children.value[j];
                 r.children.value[j] == (if c.id == id then c.(expanded := !c.expanded) else c))
  {
  }

  /** Toggling the same id twice gives back the tree it started from. */
  lemma ToggleTwice(files: seq<Entry>, id: int)
    ensures ToggleFolder(ToggleFolder(files, id), id) == files
  {
    var once := ToggleFolder(files, id);
    var twice := ToggleFolder(once, id);
    forall i | 0 <= i < |files| ensures twice[i] == files[i] {
      var e := files[i];
      if e.id != id && e.children.Some? {
        var cs := e.children.value;
        assert once[i].children.value == ToggleChildren(cs, id);
        assert ToggleChildren(ToggleChildren(cs, id), id) == cs;
      }
    }
  }

  /** The new-file form together with the tree it adds to. */
  datatype Form = Form(files: seq<Entry>, newFileName: string, isCreatingFile: bool)

  /**
    * The entry created for a name: a file exactly when the name holds a dot; a
    * folder starts folded with an empty list of children. The name is kept as
    * typed, untrimmed.
    */
  function NewEntry(id: int, name: string): (e: Entry)
    ensures e.id == id && e.name == name
    ensures e.kind == File <==> '.' in name
    ensures e.kind == Folder ==> !e.expanded && e.children == Some([])
    ensures e.kind == File ==> !e.expanded && e.children == None
  {
    if '.' in name then Entry(id, name, File, false, None)
    else Entry(id, name, Folder, false, Some([]))
  }

  /**
    * `addNewFile`, with the time `Date.now()` supplied as `now`: a blank name
    * changes nothing, not even the open form; any other name appends exactly
    * one entry at the end, then empties the name and closes the form.
    */
  function AddNewFile(st: Form, now: int): (r: Form)
    ensures IsBlank(st.newFileName) ==> r == st
    ensures !IsBlank(st.newFileName) ==>
      |r.files| == |st.files| + 1 && r.files[..|st.files|] == st.files
      && r.files[|st.files|] == NewEntry(now, st.newFileName)
      && r.newFileName == "" && !r.isCreatingFile
  {
    if IsBlank(st.newFileName) then st
    else Form(st.files + [NewEntry(now, st.newFileName)], "", false)
  }

  /** `fileName.split('.').pop()`: a piece of the name that holds no dot. */
  function LastPiece(name: string): (tail: string)
    ensures '.' !in tail
  {
    SplitPiecesOmitSeparator(name, '.');
    Last(Split(name, '.'))
  }

  /** A name without a dot is its own last piece. */
  lemma LastPieceWithoutDot(name: string)
    requires '.' !in name
    ensures LastPiece(name) == name
  {
    SplitSingle(name, '.');
  }

  /**
    * A name with a dot has the text after its last dot as its last piece; with
    * `LastPieceWithoutDot` this covers every name.
    */
  lemma LastPieceOfDotted(stem: string, ext: string)
    requires '.' !in ext
    ensures LastPiece(stem + "." + ext) == ext
  {
    assert stem + "." + ext == stem + ['.'] + ext;
    SplitLastPiece(stem, ext, '.');
  }

  /** The icon for a Markdown file. */
  const MemoIcon: string := "\U{1F4DD}"
  /** The icon for an `.ico` file. */
  const PictureIcon: string := "\U{1F5BC}\U{FE0F}"
  /** The icon for every other file. */
  const PageIcon: string := "\U{1F4C4}"
  /** A folded folder. */
  const ClosedFolderIcon: string := "\U{1F4C1}"
  /** An unfolded folder. */
  const OpenFolderIcon: string := "\U{1F4C2}"

  /** The lowercased extension a file's icon is looked up by. */
  function Extension(name: string): string {
    ToLower(LastPiece(name))
  }

  /** The keys written in the `fileIcons` table, each with its icon. */
  function OwnIcon(ext: string): Option<string> {
    if ext in {"js", "jsx", "html", "css", "json", "default"} then Some(PageIcon)
    else if ext == "md" then Some(MemoIcon)
    else if ext == "ico" then Some(PictureIcon)
    else None
  }

  /**
    * `getFileIcon`, reading only the table's own keys: the memo for `md`, the
    * picture for `ico`, the page for everything else.
    */
  function GetFileIcon(name: string): (icon: string)
    ensures icon == MemoIcon <==> Extension(name) == "md"
    ensures icon == PictureIcon <==> Extension(name) == "ico"
    ensures icon == PageIcon <==> Extension(name) != "md" && Extension(name) != "ico"
  {
    var found := OwnIcon(Extension(name));
    if found.Some? then found.value else PageIcon
  }

  /** Two names with the same last piece, up to letter case, get the same icon. */
  lemma IconDependsOnlyOnExtension(a: string, b: string)
    requires ToLower(LastPiece(a)) == ToLower(LastPiece(b))
    ensures GetFileIcon(a) == GetFileIcon(b)
  {
  }

  /** `README.md`'s icon is the memo whatever comes before the last dot. */
  lemma MarkdownIcon(stem: string)
    ensures GetFileIcon(stem + ".md") == MemoIcon
  {
    assert stem + "." + "md" == stem + ".md";
    LastPieceOfDotted(stem, "md");
    ToLowerUnchanged("md");
  }

  /**
    * What `fileIcons[extension]` yields on a plain JavaScript object: an own
    * key's icon, a property inherited from `Object.prototype` (the only
    * all-lowercase ones are `constructor` and `__proto__`), or nothing.
    */
  datatype Lookup = Own(icon: string) | Inherited(key: string) | Missing

  /** Property access on the `fileIcons` object, prototype chain included. */
  function TableLookup(ext: string): (r: Lookup)
    ensures r.Own? <==> OwnIcon(ext).Some?
    ensures r.Inherited? <==> ext == "constructor" || ext == "__proto__"
  {
    var own := OwnIcon(ext);
    if own.Some? then Own(own.value)
    else if ext == "constructor" || ext == "__proto__" then Inherited(ext)
    else Missing
  }

  /**
    * `getFileIcon` as written: `fileIcons[extension] || fileIcons.default`. An
    * inherited property is truthy, so it is returned in place of an icon.
    */
  function GetFileIconAsWritten(name: string): (r: Lookup)
    ensures r.Own? || r.Inherited?
  {
    var found := TableLookup(Extension(name));
    if found.Missing? then Own(PageIcon) else found
  }

  /**
    * Away from the two inherited keys the code as written and the own-key lookup
    * agree; with either of them it returns something that is not an icon.
    */
  lemma AsWrittenAgreesAwayFromPrototypeKeys(name: string)
    ensures Extension(name) != "constructor" && Extension(name) != "__proto__" ==>
      GetFileIconAsWritten(name) == Own(GetFileIcon(name))
    ensures Extension(name) == "constructor" || Extension(name) == "__proto__" ==>
      GetFileIconAsWritten(name).Inherited?
  {
  }

  /** A file named `notes.__proto__` gets `Object.prototype` in place of an icon. */
  lemma ProtoExtensionIsNotAnIcon(stem: string)
    ensures GetFileIconAsWritten(stem + ".__proto__") == Inherited("__proto__")
  {
    assert stem + "." + "__proto__" == stem + ".__proto__";
    LastPieceOfDotted(stem, "__proto__");
    ToLowerUnchanged("__proto__");
  }

  /**
    * The icon `renderFile` shows: a folder's reflects whether it is unfolded, a
    * file's comes from its name through the own-key lookup, which is what the
    * code as written yields for every extension but `constructor` and `__proto__`.
    */
  function EntryIcon(e: Entry): (icon: string)
    ensures e.kind == Folder ==> (icon == OpenFolderIcon <==> e.expanded)
    ensures e.kind == Folder ==> (icon == ClosedFolderIcon <==> !e.expanded)
    ensures e.kind == File ==> icon == GetFileIcon(e.name)
    ensures e.kind == File && Extension(e.name) != "constructor" && Extension(e.name) != "__proto__" ==>
      GetFileIconAsWritten(e.name) == Own(icon)
  {
    AsWrittenAgreesAwayFromPrototypeKeys(e.name);
    if e.kind == Folder then (if e.expanded then OpenFolderIcon else ClosedFolderIcon)
    else GetFileIcon(e.name)
  }

  /** The children `renderFile` draws under an entry: those of an unfolded folder, and none otherwise. */
  function ShownChildren(e: Entry): (shown: seq<Entry>)
    ensures shown != [] ==> e.kind == Folder && e.expanded
    ensures e.kind == Folder && e.expanded && e.children.Some? ==> shown == e.children.value
    ensures e.children.None? ==> shown == []
  {
    if e.kind == Folder && e.expanded && e.children.Some? then e.children.value else []
  }
}
