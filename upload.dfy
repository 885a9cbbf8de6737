/**
 * The upload route's filename checks: `allowed_file` and the checks that
 * `upload_image` makes before it saves anything.
 */
module Upload {

  import opened Wrappers
  import opened PyStr

  /** `ALLOWED_EXTENSIONS`. */
  const AllowedExtensions: set<string> := {"png", "jpg", "jpeg", "gif"}

  /** The index of the last `c` in `s`, or -1 when there is none. */
  function LastIndexOf(s: string, c: char): (r: int)
    ensures -1 <= r < |s|
    ensures r >= 0 ==> s[r] == c && forall j :: r < j < |s| ==> s[j] != c
    ensures r == -1 <==> c !in s
  {
    if s == [] then -1
    else if s[|s| - 1] == c then |s| - 1
    else LastIndexOf(s[..|s| - 1], c)
  }

  /** Python's `s.rsplit(c, 1)`. */
  function RSplitOnce(s: string, c: char): (parts: seq<string>)
    ensures 1 <= |parts| <= 2
    ensures |parts| == 2 <==> c in s
    ensures |parts| == 1 ==> parts[0] == s
    ensures |parts| == 2 ==> s == parts[0] + [c] + parts[1] && c !in parts[1]
  {
    var k := LastIndexOf(s, c);
    if k < 0 then [s]
    else
      assert s == s[..k] + [c] + s[k + 1..];
      [s[..k], s[k + 1..]]
  }

  /** The last dot of `f` is at index `k`. */
  predicate LastDotAt(f: string, k: int) {
    0 <= k < |f| && f[k] == '.' && forall j :: k < j < |f| ==> f[j] != '.'
  }

  lemma LastDotIsLastIndex(f: string, k: int)
    requires LastDotAt(f, k)
    ensures k == LastIndexOf(f, '.')
  {
  }

  /** `allowed_file`: there is a dot, and the text after the last dot, lower-cased, is an allowed extension. */
  function AllowedFile(filename: string): (r: bool)
    ensures r <==> exists k :: LastDotAt(filename, k) && Lower(filename[k + 1..]) in AllowedExtensions
  {
    ContainsChar(filename, '.');
    var ok := Contains(filename, ".") && Lower(RSplitOnce(filename, '.')[1]) in AllowedExtensions;
    assert ok ==> LastDotAt(filename, LastIndexOf(filename, '.'));
    assert forall k :: LastDotAt(filename, k) ==> k == LastIndexOf(filename, '.') by {
      forall k | LastDotAt(filename, k) ensures k == LastIndexOf(filename, '.') {
        LastDotIsLastIndex(filename, k);
      }
    }
    ok
  }

  /** Only the last extension counts, whatever comes before it. */
  lemma LastExtensionDecides(stem: string, ext: string)
    requires '.' !in ext
    ensures AllowedFile(stem + "." + ext) <==> Lower(ext) in AllowedExtensions
  {
    var f := stem + "." + ext;
    assert f[|stem|] == '.' && f[|stem| + 1..] == ext;
    assert LastDotAt(f, |stem|) by {
      forall j | |stem| < j < |f| ensures f[j] != '.' {
        assert f[j] == ext[j - |stem| - 1];
      }
    }
    LastDotIsLastIndex(f, |stem|);
  }

  /** Upper-casing commutes with taking a suffix, and lower-casing forgets it. */
  lemma UpperSuffix(s: string, k: nat)
    requires k <= |s|
    ensures Upper(s)[k..] == Upper(s[k..])
    ensures Lower(Upper(s[k..])) == Lower(s[k..])
  {
    assert |Upper(s)[k..]| == |Upper(s[k..])|;
    forall j | 0 <= j < |s| - k
      ensures Upper(s)[k..][j] == Upper(s[k..])[j]
    {
      assert Upper(s)[k..][j] == Upper(s)[k + j];
    }
  }

  /** Capitalisation of an ASCII filename does not change the verdict. */
  lemma AllowedFileIgnoresCase(filename: string)
    requires forall k :: 0 <= k < |filename| ==> filename[k] as int < 128
    ensures AllowedFile(Upper(filename)) == AllowedFile(filename)
  {
    var u := Upper(filename);
    assert forall j :: 0 <= j < |filename| ==> (u[j] == '.' <==> filename[j] == '.');
    forall k | LastDotAt(filename, k)
      ensures LastDotAt(u, k) && Lower(u[k + 1..]) == Lower(filename[k + 1..])
    {
      UpperSuffix(filename, k + 1);
    }
    forall k | LastDotAt(u, k)
      ensures LastDotAt(filename, k) && Lower(u[k + 1..]) == Lower(filename[k + 1..])
    {
      UpperSuffix(filename, k + 1);
    }
  }

  /** Capitals in the extension do not matter: `"a.PNG"` is accepted. */
  lemma AcceptsUpperCasePng()
    ensures AllowedFile("a.PNG")
  {
    LastExtensionDecides("a", "PNG");
    assert "a" + "." + "PNG" == "a.PNG";
    assert Lower("PNG") == "png";
  }

  /** Only the last extension is read: any name ending in `.tar.gif` is accepted. */
  lemma AcceptsLastOfSeveralExtensions(stem: string)
    ensures AllowedFile(stem + ".tar.gif")
  {
    LastExtensionDecides(stem + ".tar", "gif");
    assert stem + ".tar" + "." + "gif" == stem + ".tar.gif";
    assert Lower("gif") == "gif";
  }

  lemma RejectsMissingDot()
    ensures !AllowedFile("png")
  {
    assert forall k :: !LastDotAt("png", k);
  }

  lemma RejectsBmp(stem: string)
    ensures !AllowedFile(stem + "." + "bmp")
  {
    LastExtensionDecides(stem, "bmp");
    assert Lower("bmp") == "bmp";
  }

  lemma RejectsOtherExtension()
    ensures !AllowedFile("a.bmp")
  {
    RejectsBmp("a");
    assert "a" + "." + "bmp" == "a.bmp";
  }

  /** What `upload_image` decides before saving the file. */
  datatype UploadVerdict = Rejected(error: string) | Accepted(filename: string)

  /** The status code the route answers with once the file is saved (200) or refused (400). */
  function UploadStatus(v: UploadVerdict): int {
    if v.Rejected? then 400 else 200
  }

  /** `upload_image` up to the save: `file` is the uploaded part's filename, None when there is no `file` part. */
  function CheckUpload(file: Option<string>): (v: UploadVerdict)
    ensures v.Accepted? <==> file.Some? && AllowedFile(file.value)
    ensures v.Accepted? ==> v.filename == file.value && '.' in v.filename
    ensures file.None? ==> v == Rejected("No file uploaded")
    ensures file == Some("") ==> v == Rejected("No file selected")
    ensures (file.Some? && file.value != "" && !AllowedFile(file.value))
            ==> v == Rejected("Invalid file type. Only PNG, JPG, JPEG, and GIF are allowed.")
  {
    match file
    case None => Rejected("No file uploaded")
    case Some(name) =>
      if name == "" then Rejected("No file selected")
      else if !AllowedFile(name) then Rejected("Invalid file type. Only PNG, JPG, JPEG, and GIF are allowed.")
      else Accepted(name)
  }

  /** The route answers 200 exactly when a file part with an allowed name was sent, and 400 otherwise. */
  lemma UploadAnswer(file: Option<string>)
    ensures UploadStatus(CheckUpload(file)) in {200, 400}
    ensures UploadStatus(CheckUpload(file)) == 200 <==> file.Some? && AllowedFile(file.value)
  {
  }
}
