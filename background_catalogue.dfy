/**
 * The background gallery: eleven built-in presets, a user list of custom
 * entries kept in local storage, and the pure list transforms the gallery's
 * handlers apply to it.
 */
module BackgroundCatalogue {
  import opened Base

  datatype BackgroundOption = BackgroundOption(id: string, name: string, image: string, category: string)

  const CustomCategory: string := "Custom"
  const CustomIdPrefix: string := "custom-"

  /** Image of the "mountain-hiker" preset, also the editor's default background. */
  const DefaultBackgroundImage: string := "/lovable-uploads/24711e9d-7e61-42fe-8fa0-71748aa71822.png"

  /** The built-in catalogue, in display order. */
  const Presets: seq<BackgroundOption> := [
    BackgroundOption("mountain-hiker", "Mountain Hiker", DefaultBackgroundImage, "Adventure"),
    BackgroundOption("ocean-sunset", "Ocean Sunset", "/lovable-uploads/4ea1b169-b31c-4d23-900f-31b093972a0b.png", "Nature"),
    BackgroundOption("balloon-night", "Balloon Night", "/lovable-uploads/2b43ed90-a252-4cd1-927e-192dd4ee1a1e.png", "Fantasy"),
    BackgroundOption("mountain-lake", "Mountain Lake", "/lovable-uploads/f6118879-64aa-4984-ab90-69c7010b893e.png", "Nature"),
    BackgroundOption("mountain-layers", "Mountain Layers", "/lovable-uploads/eb405c2d-69ef-4ac9-98fc-0c773030109f.png", "Nature"),
    BackgroundOption("snowy-peaks", "Snowy Peaks", "/lovable-uploads/14ec5711-4b96-47c2-846b-a2ef8da0f58d.png", "Nature"),
    BackgroundOption("desert-gradient", "Desert Vista", "/lovable-uploads/c2db0ae4-c657-480c-82ae-7cfc8e9d7f08.png", "Landscape"),
    BackgroundOption("mountain-sunset", "Mountain Sunset", "/lovable-uploads/4e5516e4-daef-4db6-8d3a-7c6a4b16ed26.png", "Nature"),
    BackgroundOption("ocean-waves", "Ocean Waves", "/lovable-uploads/20c14ad3-7de0-476a-a6f5-e46ffb8e8257.png", "Nature"),
    BackgroundOption("valley-golden", "Valley Golden", "/lovable-uploads/e3bb28ea-89fb-445e-a12c-da9bb9daec73.png", "Nature"),
    BackgroundOption("misty-mountains", "Misty Mountains", "/lovable-uploads/e337bb92-b378-4af2-bb0e-f7469c3d9970.png", "Nature")
  ]

  /** The gallery shows a delete button exactly on entries of category "Custom". */
  predicate CanDelete(b: BackgroundOption): (r: bool)
    ensures r ==> forall k :: 0 <= k < |Presets| ==> Presets[k] != b
  {
    b.category == CustomCategory
  }

  lemma PresetsFacts()
    ensures |Presets| == 11
    ensures Presets[0].id == "mountain-hiker" && Presets[0].image == DefaultBackgroundImage
    ensures forall k :: 0 <= k < |Presets| ==> !CanDelete(Presets[k])
    ensures forall k, l :: 0 <= k < l < |Presets| ==> Presets[k].id != Presets[l].id
  {
  }

  // ---------------------------------------------------------------------------
  // Display name of an uploaded file: `name.replace(/\.[^/.]+$/, "")`
  // ---------------------------------------------------------------------------

  predicate IsSeparator(c: char) { c == '/' || c == '.' }

  /** The regular expression `\.[^/.]+$` matches `s` starting at index `i`. */
  ghost predicate ExtensionMatchAt(s: string, i: int) {
    0 <= i < |s| - 1 && s[i] == '.' &&
    forall j :: i < j < |s| ==> !IsSeparator(s[j])
  }

  /** Length of the longest suffix of `s` that holds no '/' and no '.'. */
  function TrailingRunLength(s: string): (n: nat)
    ensures n <= |s|
    ensures forall j :: |s| - n <= j < |s| ==> !IsSeparator(s[j])
    ensures n < |s| ==> IsSeparator(s[|s| - n - 1])
  {
    if |s| == 0 || IsSeparator(s[|s| - 1]) then 0
    else 1 + TrailingRunLength(s[..|s| - 1])
  }

  /**
   * Removes a final extension: a '.' followed by one or more characters, none
   * of them '/' or '.', up to the end of the name. Otherwise the name is kept.
   */
  function StripExtension(name: string): (r: string)
    ensures r != name <==> exists i :: ExtensionMatchAt(name, i)
    ensures forall i :: ExtensionMatchAt(name, i) ==> r == name[..i]
  {
    var n := TrailingRunLength(name);
    if 0 < n < |name| && name[|name| - n - 1] == '.' then
      var r := name[..|name| - n - 1];
      assert ExtensionMatchAt(name, |r|);
      assert |r| < |name|;
      r
    else
      name
  }

  /** Stripping undoes appending a well-formed extension. */
  lemma StripAppendedExtension(base: string, ext: string)
    requires |ext| > 0 && forall j :: 0 <= j < |ext| ==> !IsSeparator(ext[j])
    ensures StripExtension(base + "." + ext) == base
  {
    var s := base + "." + ext;
    assert forall j :: |base| < j < |s| ==> s[j] == ext[j - |base| - 1];
    assert ExtensionMatchAt(s, |base|);
    assert s[..|base|] == base;
  }

  /** Only the last extension goes; a trailing dot or a dot before a '/' stays. */
  lemma StripExtensionExamples()
    ensures StripExtension("a.b.png") == "a.b"
    ensures StripExtension("noext") == "noext"
    ensures StripExtension("x.") == "x."
    ensures StripExtension(".bashrc") == ""
    ensures StripExtension("dir.d/file") == "dir.d/file"
  {
    StripAppendedExtension("a.b", "png");
    assert "a.b" + "." + "png" == "a.b.png";
    StripAppendedExtension("", "bashrc");
    assert "" + "." + "bashrc" == ".bashrc";
    var s := "dir.d/file";
    forall i | 0 <= i < |s| ensures !ExtensionMatchAt(s, i) {
      if i < 5 { assert IsSeparator(s[5]); }
    }
    var t := "x.";
    assert !ExtensionMatchAt(t, 1);
  }

  // ---------------------------------------------------------------------------
  // List transforms
  // ---------------------------------------------------------------------------

  /** The number a string of decimal digits denotes. */
  function DecimalValue(s: string): nat
    requires forall j :: 0 <= j < |s| ==> '0' <= s[j] <= '9'
  {
    if s == [] then 0
    else DecimalValue(s[..|s| - 1]) * 10 + (s[|s| - 1] as int - '0' as int)
  }

  /** Decimal digits of `n`, as `${n}` prints a non-negative integer. */
  function DecimalString(n: nat): (r: string)
    ensures |r| > 0 && forall j :: 0 <= j < |r| ==> '0' <= r[j] <= '9'
    ensures DecimalValue(r) == n
    ensures |r| > 1 ==> r[0] != '0'
  {
    var d := [('0' as int + n % 10) as char];
    if n < 10 then d
    else
      var p := DecimalString(n / 10);
      assert (p + d)[..|p + d| - 1] == p;
      p + d
  }

  /** The entry an uploaded image becomes; `timestamp` stands for `Date.now()`. */
  function NewCustomEntry(timestamp: nat, file: FileInfo, dataUrl: string): (e: BackgroundOption)
    ensures CanDelete(e)
    ensures e.id == CustomIdPrefix + DecimalString(timestamp) && e.category == CustomCategory
    ensures e.image == dataUrl
    ensures e.name == StripExtension(file.name)
  {
    BackgroundOption(CustomIdPrefix + DecimalString(timestamp), StripExtension(file.name), dataUrl, CustomCategory)
  }

  /** `list.filter(bg => bg.id !== id)`. */
  function DeleteById(list: seq<BackgroundOption>, id: string): (r: seq<BackgroundOption>)
    ensures |r| <= |list|
    ensures forall e :: e in r <==> e in list && e.id != id
  {
    if list == [] then []
    else if list[0].id == id then DeleteById(list[1..], id)
    else [list[0]] + DeleteById(list[1..], id)
  }

  predicate HasId(list: seq<BackgroundOption>, id: string) {
    exists k :: 0 <= k < |list| && list[k].id == id
  }

  /** Deleting changes the list exactly when some entry carries the id. */
  lemma {:induction false} DeleteUnchangedIffAbsent(list: seq<BackgroundOption>, id: string)
    ensures DeleteById(list, id) == list <==> !HasId(list, id)
  {
    if list != [] {
      DeleteUnchangedIffAbsent(list[1..], id);
      if list[0].id == id {
        assert |DeleteById(list[1..], id)| < |list|;
      } else {
        assert HasId(list, id) <==> HasId(list[1..], id) by {
          if HasId(list, id) {
            var k :| 0 <= k < |list| && list[k].id == id;
            assert list[1..][k - 1].id == id;
          }
          if HasId(list[1..], id) {
            var k :| 0 <= k < |list[1..]| && list[1..][k].id == id;
            assert list[k + 1].id == id;
          }
        }
        assert list == [list[0]] + list[1..];
      }
    }
  }

  /** Filtering distributes over concatenation, so the kept entries keep their order. */
  lemma {:induction false} DeleteDistributes(a: seq<BackgroundOption>, b: seq<BackgroundOption>, id: string)
    ensures DeleteById(a + b, id) == DeleteById(a, id) + DeleteById(b, id)
  {
    if a != [] {
      assert (a + b)[1..] == a[1..] + b;
      DeleteDistributes(a[1..], b, id);
    } else {
      assert a + b == b;
    }
  }

  /** Deleting twice is deleting once. */
  lemma DeleteIdempotent(list: seq<BackgroundOption>, id: string)
    ensures DeleteById(DeleteById(list, id), id) == DeleteById(list, id)
  {
  }

  /** The gallery shows custom entries first, then the presets. */
  function AllBackgrounds(custom: seq<BackgroundOption>): (r: seq<BackgroundOption>)
    ensures |r| == |custom| + |Presets|
    ensures r[..|custom|] == custom && r[|custom|..] == Presets
  {
    custom + Presets
  }

  /** When every custom entry is of category "Custom", exactly the custom prefix offers deletion. */
  lemma DeletableExactlyCustom(custom: seq<BackgroundOption>, k: nat)
    requires forall j :: 0 <= j < |custom| ==> CanDelete(custom[j])
    requires k < |AllBackgrounds(custom)|
    ensures CanDelete(AllBackgrounds(custom)[k]) <==> k < |custom|
  {
  }

  /**
   * The list loaded on mount: a stored, non-empty value replaces the initial empty
   * list when it parses; `parsed` is the outcome of `JSON.parse` (None when it throws).
   */
  function LoadedCustom(stored: Option<string>, parsed: Option<seq<BackgroundOption>>): (r: seq<BackgroundOption>)
    ensures parsed.None? ==> r == []
    ensures stored.None? || stored == Some("") ==> r == []
    ensures stored.Some? && stored.value != "" && parsed.Some? ==> r == parsed.value
  {
    if stored.Some? && stored.value != "" && parsed.Some? then parsed.value else []
  }

  /** The gallery component's custom list and its mirror in local storage. */
  class BackgroundSelector {
    var custom: seq<BackgroundOption>
    /** What the last write stored under the 'customBackgrounds' key, if any. */
    var saved: Option<seq<BackgroundOption>>

    /** Mount: start from an empty list, then load what local storage holds. */
    constructor (stored: Option<string>, parsed: Option<seq<BackgroundOption>>)
      ensures custom == LoadedCustom(stored, parsed)
      ensures saved == None
    {
      custom := LoadedCustom(stored, parsed);
      saved := None;
    }

    function Displayed(): (r: seq<BackgroundOption>)
      reads this
      ensures |r| == |custom| + |Presets|
      ensures r[..|custom|] == custom && r[|custom|..] == Presets
    {
      AllBackgrounds(custom)
    }

    /**
     * Upload of a custom background. A missing or non-image file is ignored;
     * otherwise the read file's data URL becomes a new entry appended at the end.
     */
    method UploadCustomBackground(file: Option<FileInfo>, timestamp: nat, dataUrl: string) returns (added: bool)
      modifies this
      ensures added <==> file.Some? && IsImageFile(file.value)
      ensures added ==> custom == old(custom) + [NewCustomEntry(timestamp, file.value, dataUrl)]
      ensures added ==> saved == Some(custom)
      ensures !added ==> custom == old(custom) && saved == old(saved)
    {
      if file.None? { return false; }
      if !IsImageFile(file.value) { return false; }
      var entry := NewCustomEntry(timestamp, file.value, dataUrl);
      custom := custom + [entry];
      saved := Some(custom);
      return true;
    }

    /** Removes every custom entry with the given id and persists the result. */
    method DeleteCustomBackground(id: string)
      modifies this
      ensures custom == DeleteById(old(custom), id)
      ensures saved == Some(custom)
    {
      custom := DeleteById(custom, id);
      saved := Some(custom);
    }
  }
}
