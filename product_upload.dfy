/**
 * The upload configuration of POST /api/products: the file filter that lets through only
 * image files, Node's `path.extname` that it relies on, and the name a stored file gets.
 */
module ProductUpload {
  import opened Wrappers
  import opened Text

  const OnlyImagesMessage := "Only image files are allowed!"

  /** The alternatives of the regular expression /jpeg|jpg|png|webp/. */
  const ImageTypes: seq<string> := ["jpeg", "jpg", "png", "webp"]

  /** Some alternative of the expression matches `s` at index `i`, tried left to right. */
  predicate MatchesAt(s: string, i: nat) {
    OccursAt(s, "jpeg", i) || OccursAt(s, "jpg", i) || OccursAt(s, "png", i) || OccursAt(s, "webp", i)
  }

  /** The unanchored search of `RegExp.prototype.test`, starting at index `i`. */
  function SearchFrom(s: string, i: nat): bool
    requires i <= |s|
    decreases |s| - i
  {
    if MatchesAt(s, i) then true
    else if i == |s| then false
    else SearchFrom(s, i + 1)
  }

  /** `/jpeg|jpg|png|webp/.test(s)`. */
  function TestImageTypes(s: string): bool {
    SearchFrom(s, 0)
  }

  /** Some alternative of the expression is a substring of `s`. */
  ghost predicate ContainsImageType(s: string) {
    exists k :: 0 <= k < |ImageTypes| && Contains(s, ImageTypes[k])
  }

  lemma {:induction false} SearchFromFinds(s: string, i: nat)
    requires i <= |s|
    ensures SearchFrom(s, i) <==> exists j :: i <= j <= |s| && MatchesAt(s, j)
    decreases |s| - i
  {
    if !MatchesAt(s, i) && i < |s| {
      SearchFromFinds(s, i + 1);
      if exists j :: i <= j <= |s| && MatchesAt(s, j) {
        var j :| i <= j <= |s| && MatchesAt(s, j);
        assert j != i;
      }
    }
  }

  /** Because the expression has no anchors, `test` is a substring test for the four words. */
  lemma TestIsSubstringSearch(s: string)
    ensures TestImageTypes(s) <==> ContainsImageType(s)
  {
    SearchFromFinds(s, 0);
    if ContainsImageType(s) {
      var k :| 0 <= k < |ImageTypes| && Contains(s, ImageTypes[k]);
      var j: nat :| OccursAt(s, ImageTypes[k], j);
      assert MatchesAt(s, j);
    }
    if TestImageTypes(s) {
      var j :| 0 <= j <= |s| && MatchesAt(s, j);
      if OccursAt(s, "jpeg", j) { assert Contains(s, ImageTypes[0]); }
      else if OccursAt(s, "jpg", j) { assert Contains(s, ImageTypes[1]); }
      else if OccursAt(s, "png", j) { assert Contains(s, ImageTypes[2]); }
      else { assert Contains(s, ImageTypes[3]); }
    }
  }

  /** The path with its trailing '/' characters removed. */
  function TrimTrailingSlashes(path: string): string {
    if path != [] && path[|path| - 1] == '/' then TrimTrailingSlashes(path[..|path| - 1]) else path
  }

  /** The last '/'-separated component of a path without trailing slashes. */
  function LastComponent(path: string): (base: string)
    ensures '/' !in base
  {
    match LastIndexOf(path, '/')
    case None => path
    case Some(k) => path[k + 1..]
  }

  /**
   * POSIX `path.extname`: from the last '.' of the last path component to its end; empty when
   * that component has no '.', when its only candidate '.' is its first character, and for "..".
   */
  function ExtName(path: string): string {
    var base := LastComponent(TrimTrailingSlashes(path));
    if base == ".." then ""
    else
      match LastIndexOf(base, '.')
      case None => ""
      case Some(k) => if k == 0 then "" else base[k..]
  }

  lemma {:induction false} TrimmedIsPrefix(path: string)
    ensures var t := TrimTrailingSlashes(path); |t| <= |path| && t == path[..|t|]
  {
    if path != [] && path[|path| - 1] == '/' {
      TrimmedIsPrefix(path[..|path| - 1]);
    }
  }

  /**
   * The extension is empty or is a '.' followed by no further '.' or '/', and it is a suffix
   * of the name's last component, which itself precedes only trailing slashes.
   */
  lemma ExtNameShape(path: string)
    ensures var e := ExtName(path);
            e == "" || (e[0] == '.' && '.' !in e[1..] && '/' !in e)
    ensures var base := LastComponent(TrimTrailingSlashes(path));
            |ExtName(path)| <= |base| && ExtName(path) == base[|base| - |ExtName(path)|..]
  {
    var base := LastComponent(TrimTrailingSlashes(path));
    match LastIndexOf(base, '.')
    case None =>
    case Some(k) =>
      if base != ".." && k != 0 {
        var e := base[k..];
        assert e[1..] == base[k + 1..];
        assert forall c :: c in e ==> c in base;
      }
  }

  /** A plain file name with a '.' after its first character has the extension from its last '.'. */
  lemma ExtNameOfFileName(name: string, k: nat)
    requires '/' !in name && 0 < k < |name| && name[k] == '.' && '.' !in name[k + 1..]
    requires name != ".."
    ensures ExtName(name) == name[k..]
  {
  }

  /** What the filter tells the upload middleware: keep the file, or fail the upload. */
  datatype FilterVerdict = Accept | Reject(message: string)

  /** The `fileFilter` callback. */
  function FileFilter(mimetype: string, originalname: string): FilterVerdict {
    if TestImageTypes(mimetype) && TestImageTypes(LowerAscii(ExtName(originalname))) then Accept
    else Reject(OnlyImagesMessage)
  }

  /**
   * A file is accepted exactly when its MIME type and its lower-cased extension each contain
   * one of jpeg, jpg, png, webp; otherwise the upload fails with "Only image files are allowed!".
   */
  lemma FileFilterAcceptsImages(mimetype: string, originalname: string)
    ensures FileFilter(mimetype, originalname) == Accept
            <==> ContainsImageType(mimetype) && ContainsImageType(LowerAscii(ExtName(originalname)))
    ensures FileFilter(mimetype, originalname) != Accept
            ==> FileFilter(mimetype, originalname) == Reject(OnlyImagesMessage)
  {
    TestIsSubstringSearch(mimetype);
    TestIsSubstringSearch(LowerAscii(ExtName(originalname)));
  }

  /** A name without an extension is refused even when the name itself contains "jpg". */
  lemma NoExtensionRejected(mimetype: string, originalname: string)
    requires '.' !in originalname
    ensures FileFilter(mimetype, originalname) == Reject(OnlyImagesMessage)
  {
    ExtNameShape(originalname);
    var base := LastComponent(TrimTrailingSlashes(originalname));
    TrimmedIsPrefix(originalname);
    assert ExtName(originalname) == "" by {
      assert forall c :: c in base ==> c in originalname;
    }
    assert !MatchesAt(LowerAscii(""), 0);
  }

  /** The name the disk storage gives a file: `Date.now() + '-' + file.originalname`. */
  function StoredFilename(timestamp: nat, originalname: string): string {
    DecimalString(timestamp) + "-" + originalname
  }

  /** Splits a stored name at its first '-' into the timestamp and the original name. */
  function SplitStoredFilename(name: string): Option<(nat, string)> {
    match IndexOf(name, '-')
    case None => None
    case Some(k) =>
      if k > 0 && AllDigits(name[..k]) then Some((ParseDecimal(name[..k]), name[k + 1..])) else None
  }

  /** The stored name keeps the original name verbatim and the timestamp can be read back. */
  lemma StoredFilenameRoundTrip(timestamp: nat, originalname: string)
    ensures SplitStoredFilename(StoredFilename(timestamp, originalname)) == Some((timestamp, originalname))
  {
    var d := DecimalString(timestamp);
    var name := StoredFilename(timestamp, originalname);
    assert '-' !in d;
    assert name[|d|] == '-';
    assert name[..|d|] == d;
    var k := IndexOf(name, '-').value;
    assert name[k + 1..] == originalname;
    ParseDecimalString(timestamp);
  }

  /** Two files get the same stored name only if they have the same timestamp and original name. */
  lemma StoredFilenameInjective(t1: nat, n1: string, t2: nat, n2: string)
    requires StoredFilename(t1, n1) == StoredFilename(t2, n2)
    ensures t1 == t2 && n1 == n2
  {
    StoredFilenameRoundTrip(t1, n1);
    StoredFilenameRoundTrip(t2, n2);
  }
}
