/** The skin catalog (renderer.js, loadSkins and the Shift + right-click handler):
    the image files of the assets directory, in listing order, and the index of
    the skin on display, advanced cyclically. */
module Skins {

  /** What reading the assets directory gives: its entries, or nothing when the
      directory is missing or cannot be read (loadSkins then keeps its list). */
  datatype Listing = Unavailable | Entries(names: seq<string>)

  /** The extensions, compared lower-cased, of the files kept as skins. */
  const IMAGE_EXTENSIONS: seq<string> := [".png", ".jpg", ".jpeg", ".gif", ".webp"]

  /** Shown at start-up when the catalog has no first entry. */
  const DEFAULT_SKIN: string := "default.png"

  // ---------------------------------------------------------------------------
  // Extension filter
  // ---------------------------------------------------------------------------

  /** Position of the last c in s, or -1 when s has none. */
  function LastIndexOf(s: string, c: char): (k: int)
    ensures -1 <= k < |s|
    ensures k >= 0 ==> s[k] == c
    ensures forall j :: k < j < |s| ==> s[j] != c
    decreases |s|
  {
    if s == [] then -1
    else if s[|s| - 1] == c then |s| - 1
    else LastIndexOf(s[..|s| - 1], c)
  }

  /** The extension of a directory entry as path.extname gives it: from the last
      dot to the end; empty when there is no dot, when the last dot is the
      entry's first character (".png" is a hidden file with no extension), and
      for "..". Directory entries carry no path separator. */
  function Extname(name: string): (ext: string)
    ensures ext == "" <==> name == ".." || forall j :: 0 < j < |name| ==> name[j] != '.'
    ensures ext != "" ==> 0 < |ext| < |name| && name == name[..|name| - |ext|] + ext
    ensures ext != "" ==> ext[0] == '.' && forall j :: 0 < j < |ext| ==> ext[j] != '.'
  {
    var k := LastIndexOf(name, '.');
    if k <= 0 || name == ".." then "" else name[k..]
  }

  predicate IsUpper(c: char)
  {
    'A' <= c <= 'Z'
  }

  /** ASCII lower-casing of one character: an upper-case letter moves 32 code
      points up to its lower-case form; everything else is left alone. */
  function LowerChar(c: char): (r: char)
    ensures !IsUpper(r)
    ensures IsUpper(c) ==> r as int == c as int + 32 && 'a' <= r <= 'z'
    ensures !IsUpper(c) ==> r == c
  {
    if IsUpper(c) then (c as int - 'A' as int + 'a' as int) as char else c
  }

  /** ASCII lower-casing: same length, no upper-case letter left, and every
      character either kept or an upper-case letter shifted to lower case. */
  function ToLower(s: string): (r: string)
    ensures |r| == |s|
    ensures forall i :: 0 <= i < |r| ==> !IsUpper(r[i])
    ensures forall i :: 0 <= i < |s| ==>
      (!IsUpper(s[i]) && r[i] == s[i]) || (IsUpper(s[i]) && r[i] as int == s[i] as int + 32)
  {
    seq(|s|, i requires 0 <= i < |s| => LowerChar(s[i]))
  }

  /** Lower-casing twice is lower-casing once. */
  lemma ToLowerIdempotent(s: string)
    ensures ToLower(ToLower(s)) == ToLower(s)
  {
    var once := ToLower(s);
    var twice := ToLower(once);
    assert forall i :: 0 <= i < |once| ==> twice[i] == once[i];
  }

  /** The filter's test: the lower-cased extension is one of the five image
      extensions. A skin's name therefore carries a dotted extension of four or
      five characters after its first character. */
  predicate IsSkinFile(name: string)
    ensures IsSkinFile(name) ==> 4 <= |Extname(name)| <= 5 && Extname(name)[0] == '.'
  {
    var lower := ToLower(Extname(name));
    ImageExtensionShape(lower);
    lower in IMAGE_EXTENSIONS
  }

  lemma ImageExtensionShape(x: string)
    ensures x in IMAGE_EXTENSIONS ==> 4 <= |x| <= 5 && x[0] == '.'
  {
  }

  /** The filter ignores the case of the extension: two names on the same stem
      whose dotted suffixes agree once lower-cased are both skins or neither. */
  lemma SkinFileIgnoresCase(stem: string, u: string, v: string)
    requires |stem| > 0 && |u| > 0 && u[0] == '.' && |v| > 0 && v[0] == '.'
    requires forall j :: 0 < j < |u| ==> u[j] != '.'
    requires forall j :: 0 < j < |v| ==> v[j] != '.'
    requires ToLower(u) == ToLower(v)
    ensures IsSkinFile(stem + u) <==> IsSkinFile(stem + v)
  {
    assert |u| == |ToLower(u)| == |ToLower(v)| == |v|;
    if stem + u == ".." || stem + v == ".." {
      assert |stem| == 1 && |u| == 1;
      assert u == ['.'] == v;
    } else {
      ExtnameOfSplit(stem, u);
      ExtnameOfSplit(stem, v);
    }
  }

  /** Array.prototype.filter on a listing: the names keep accepts, in listing order. */
  function Filter(names: seq<string>, keep: string -> bool): (kept: seq<string>)
    ensures |kept| <= |names|
    decreases |names|
  {
    if names == [] then []
    else (if keep(names[0]) then [names[0]] else []) + Filter(names[1..], keep)
  }

  /** A name is kept exactly when it is listed and accepted. */
  lemma {:induction false} FilterMembers(names: seq<string>, keep: string -> bool, f: string)
    ensures f in Filter(names, keep) <==> f in names && keep(f)
    decreases |names|
  {
    if names != [] {
      FilterMembers(names[1..], keep, f);
      assert f in names <==> f == names[0] || f in names[1..];
    }
  }

  /** The filter keeps the listing order: filtering a concatenation concatenates
      the filtered parts. */
  lemma {:induction false} FilterAppend(a: seq<string>, b: seq<string>, keep: string -> bool)
    ensures Filter(a + b, keep) == Filter(a, keep) + Filter(b, keep)
    decreases |a|
  {
    if a == [] {
      assert a + b == b;
    } else {
      var head := if keep(a[0]) then [a[0]] else [];
      assert (a + b)[0] == a[0];
      assert (a + b)[1..] == a[1..] + b;
      assert Filter(a + b, keep) == head + Filter(a[1..] + b, keep);
      FilterAppend(a[1..], b, keep);
      assert head + (Filter(a[1..], keep) + Filter(b, keep))
          == (head + Filter(a[1..], keep)) + Filter(b, keep);
    }
  }

  /** Filtering a second time keeps everything. */
  lemma {:induction false} FilterIdempotent(names: seq<string>, keep: string -> bool)
    ensures Filter(Filter(names, keep), keep) == Filter(names, keep)
    decreases |names|
  {
    if names != [] {
      var head := if keep(names[0]) then [names[0]] else [];
      FilterIdempotent(names[1..], keep);
      FilterAppend(head, Filter(names[1..], keep), keep);
      assert Filter(head, keep) == head by {
        if head != [] {
          assert head[1..] == [];
        }
      }
    }
  }

  /** The skins of a listing: the entries with an image extension, in listing order. */
  function SkinFiles(names: seq<string>): (skins: seq<string>)
    ensures |skins| <= |names|
  {
    Filter(names, IsSkinFile)
  }

  /** A name is a skin exactly when it is listed and has an image extension. */
  lemma SkinFilesMembers(names: seq<string>, f: string)
    ensures f in SkinFiles(names) <==> f in names && IsSkinFile(f)
  {
    FilterMembers(names, IsSkinFile, f);
  }

  /** Skins are listed in directory order, whatever the listing is split into. */
  lemma SkinFilesAppend(a: seq<string>, b: seq<string>)
    ensures SkinFiles(a + b) == SkinFiles(a) + SkinFiles(b)
  {
    FilterAppend(a, b, IsSkinFile);
  }

  /** Re-filtering the catalog changes nothing. */
  lemma SkinFilesIdempotent(names: seq<string>)
    ensures SkinFiles(SkinFiles(names)) == SkinFiles(names)
  {
    FilterIdempotent(names, IsSkinFile);
  }

  /** A name made of a non-empty stem and a dotted suffix with no further dot has
      that suffix as its extension. */
  lemma ExtnameOfSplit(stem: string, ext: string)
    requires |stem| > 0 && |ext| > 0 && ext[0] == '.'
    requires forall j :: 0 < j < |ext| ==> ext[j] != '.'
    requires stem + ext != ".."
    ensures Extname(stem + ext) == ext
  {
    var name := stem + ext;
    var k := LastIndexOf(name, '.');
    assert name[|stem|] == '.';
    assert forall j :: |stem| < j < |name| ==> name[j] == ext[j - |stem|] != '.';
    assert k == |stem|;
    assert name[k..] == ext;
  }

  // Examples: upper-case extensions count; text files, hidden ".gif" files
  // and names without an extension do not.

  lemma UpperCaseExtensionKept()
    ensures IsSkinFile("cat.PNG")
  {
    ExtnameOfSplit("cat", ".PNG");
    assert "cat" + ".PNG" == "cat.PNG";
    assert ToLower(".PNG") == ".png" == IMAGE_EXTENSIONS[0];
  }

  lemma OtherExtensionDropped()
    ensures !IsSkinFile("notes.txt")
  {
    ExtnameOfSplit("notes", ".txt");
    assert "notes" + ".txt" == "notes.txt";
    var e := ToLower(".txt");
    assert e[1] == 't';
    assert forall x :: x in IMAGE_EXTENSIONS ==> |x| > 1 && x[1] != 't';
  }

  lemma NoExtensionDropped()
    ensures !IsSkinFile(".gif") && !IsSkinFile("README")
  {
    assert Extname(".gif") == "";
    assert Extname("README") == "";
    assert ToLower("") == "";
  }

  lemma LowerCaseExtensionKept()
    ensures IsSkinFile("dj.webp")
  {
    ExtnameOfSplit("dj", ".webp");
    assert "dj" + ".webp" == "dj.webp";
    assert ToLower(".webp") == ".webp" == IMAGE_EXTENSIONS[4];
  }

  // ---------------------------------------------------------------------------
  // Cycling
  // ---------------------------------------------------------------------------

  /** The index after one Shift + right-click on a catalog of count skins: the
      next skin, wrapping from the last back to the first. */
  function NextSkinIndex(index: nat, count: nat): (r: nat)
    requires count > 0
    ensures r < count
    ensures index + 1 < count ==> r == index + 1
    ensures index + 1 == count ==> r == 0
  {
    (index + 1) % count
  }

  /** The index after k cycles. */
  function CycleTimes(index: nat, count: nat, k: nat): nat
    requires count > 0
  {
    if k == 0 then index else NextSkinIndex(CycleTimes(index, count, k - 1), count)
  }

  /** Starting from a valid index, k <= count cycles advance it by k, wrapping once. */
  lemma {:induction false} CycleTimesIsOffset(index: nat, count: nat, k: nat)
    requires index < count && k <= count
    ensures CycleTimes(index, count, k) == if index + k < count then index + k else index + k - count
  {
    if k > 0 {
      CycleTimesIsOffset(index, count, k - 1);
    }
  }

  /** Cycling as many times as there are skins comes back to the skin shown. */
  lemma CycleReturns(index: nat, count: nat)
    requires index < count
    ensures CycleTimes(index, count, count) == index
  {
    CycleTimesIsOffset(index, count, count);
  }

  /** The skin named at start-up: the catalog's first entry, or the default when
      there is none (an empty name counts as none). */
  function InitialSkin(skins: seq<string>): (name: string)
    ensures name != ""
    ensures name in skins || name == DEFAULT_SKIN
    ensures |skins| > 0 && skins[0] != "" ==> name == skins[0]
    ensures !(|skins| > 0 && skins[0] != "") ==> name == DEFAULT_SKIN
  {
    if |skins| > 0 && skins[0] != "" then skins[0] else DEFAULT_SKIN
  }
}
