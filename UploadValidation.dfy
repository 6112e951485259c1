/** UploadImagesCommandValidator: three independent rules over the uploaded
    file collection, each reporting its failures in file order. */
module UploadValidation {
  import opened Common

  /** The parts of an uploaded form file that the rules look at. */
  datatype UploadFile = UploadFile(fileName: string, length: int)

  /** Where a failure is reported: on the collection itself, or on the
      element at an index (`Files[i]`). */
  datatype PropertyPath = Files | FileAt(index: nat)

  datatype ValidationFailure = ValidationFailure(property: PropertyPath, errorMessage: string)

  const MaxFileSize: int := 2 * 1024 * 1024
  const AllowedExtensions: seq<string> := [".jpg", ".jpeg", ".png", ".webp"]

  const NoFilesMessage := "No files were uploaded"
  const TooLargeMessage := "File exceeds 2MB limit"
  const InvalidFormatMessage := "File has invalid format. Only JPG, PNG, and WebP formats are allowed."

  /** No extension separator and no directory separator. */
  predicate Plain(s: string) {
    forall k :: 0 <= k < |s| ==> s[k] != '.' && s[k] != '/'
  }

  /** Path.GetExtension scanning backwards from index `i`: a directory
      separator ends the search with no extension, a '.' in the last position
      gives no extension, and any other '.' starts the extension. */
  function ExtensionFrom(name: string, i: nat): (r: string)
    requires i <= |name|
    ensures r == [] || (2 <= |r| <= |name| && r[0] == '.' && r == name[|name| - |r|..])
    decreases i
  {
    if i == 0 then ""
    else if name[i - 1] == '/' || (name[i - 1] == '.' && i == |name|) then ""
    else if name[i - 1] == '.' then name[i - 1..]
    else ExtensionFrom(name, i - 1)
  }

  /** Path.GetExtension with '/' as the directory separator: the text from
      the last '.' after the last '/', provided something follows that '.';
      otherwise the empty string. */
  function Extension(name: string): (r: string)
    ensures r == [] || (2 <= |r| <= |name| && r[0] == '.' && r == name[|name| - |r|..])
  {
    ExtensionFrom(name, |name|)
  }

  /** A '.' or '/' at index m makes every suffix starting before m impure. */
  lemma SeparatorBlocks(name: string, m: nat)
    requires m < |name| && (name[m] == '.' || name[m] == '/')
    ensures forall j :: 0 <= j < m && name[j] == '.' ==> !Plain(name[j + 1..])
  {
    forall j | 0 <= j < m && name[j] == '.'
      ensures !Plain(name[j + 1..])
    {
      assert name[j + 1..][m - j - 1] == name[m];
    }
  }

  /** The backward scan finds an extension exactly when some '.' before `i`,
      other than the last character, is followed by plain characters only,
      and then the extension runs from that '.' to the end. */
  lemma {:induction false} ScanFindsLastDot(name: string, i: nat)
    requires i <= |name| && Plain(name[i..])
    ensures var r := ExtensionFrom(name, i);
      r != [] <==> exists j :: 0 <= j < i && j < |name| - 1 && name[j] == '.' && Plain(name[j + 1..])
    ensures var r := ExtensionFrom(name, i);
      r != [] ==> exists j :: 0 <= j < |name| - 1 && r == name[j..] && name[j] == '.' && Plain(name[j + 1..])
    decreases i
  {
    if i == 0 {
    } else if name[i - 1] == '/' || (name[i - 1] == '.' && i == |name|) {
      SeparatorBlocks(name, i - 1);
    } else if name[i - 1] == '.' {
      assert name[i - 1 + 1..] == name[i..];
    } else {
      assert name[i - 1..] == [name[i - 1]] + name[i..];
      ScanFindsLastDot(name, i - 1);
    }
  }

  /** Path.GetExtension's result characterised: there is an extension exactly
      when a '.' other than the last character is followed by neither '.'
      nor '/', and it is the text from that '.' to the end. */
  lemma ExtensionCharacterised(name: string)
    ensures Extension(name) != [] <==> exists j :: 0 <= j < |name| - 1 && name[j] == '.' && Plain(name[j + 1..])
    ensures Extension(name) != [] ==> Plain(Extension(name)[1..])
  {
    assert name[|name|..] == [];
    ScanFindsLastDot(name, |name|);
    var r := Extension(name);
    if r != [] {
      var j :| 0 <= j < |name| - 1 && r == name[j..] && name[j] == '.' && Plain(name[j + 1..]);
      assert r[1..] == name[j + 1..];
    }
  }

  /** The extension is fixed by its '.': a '.' followed, to the end of the
      name, by neither '.' nor '/' starts it. */
  lemma ExtensionAt(name: string, j: nat)
    requires j < |name| - 1 && name[j] == '.' && Plain(name[j + 1..])
    ensures Extension(name) == name[j..]
  {
    assert name[|name|..] == [];
    ScanFindsLastDot(name, |name|);
    var r := Extension(name);
    var j' :| 0 <= j' < |name| - 1 && r == name[j'..] && name[j'] == '.' && Plain(name[j' + 1..]);
    SeparatorBlocks(name, j);
    SeparatorBlocks(name, j');
  }

  /** A name with no '.' at all has no extension. */
  lemma NoDotNoExtension(name: string)
    requires forall k :: 0 <= k < |name| ==> name[k] != '.'
    ensures Extension(name) == ""
  {
    assert name[|name|..] == [];
    ScanFindsLastDot(name, |name|);
  }

  predicate WithinSizeLimit(f: UploadFile) {
    f.length <= MaxFileSize
  }

  predicate HasAllowedFormat(f: UploadFile) {
    Lower(Extension(f.fileName)) in AllowedExtensions
  }

  /** The size rule's verdict on each file, in file order. */
  function SizeVerdicts(files: seq<UploadFile>): (r: seq<bool>)
    ensures |r| == |files|
    ensures forall i :: 0 <= i < |files| ==> (r[i] <==> files[i].length <= MaxFileSize)
  {
    seq(|files|, i requires 0 <= i < |files| => WithinSizeLimit(files[i]))
  }

  /** The format rule's verdict on each file, in file order. */
  function FormatVerdicts(files: seq<UploadFile>): (r: seq<bool>)
    ensures |r| == |files|
    ensures forall i :: 0 <= i < |files| ==> (r[i] <==> HasAllowedFormat(files[i]))
  {
    seq(|files|, i requires 0 <= i < |files| => HasAllowedFormat(files[i]))
  }

  /** One RuleForEach(..).Must(..).WithMessage(..) rule: one failure, at the
      file's index, for each file whose verdict is false, in file order. */
  function EachFailures(passed: seq<bool>, message: string): (r: seq<ValidationFailure>)
    ensures |r| <= |passed|
    ensures forall k :: 0 <= k < |r| ==>
      && r[k].property.FileAt?
      && r[k].property.index < |passed|
      && !passed[r[k].property.index]
      && r[k].errorMessage == message
    decreases |passed|
  {
    if passed == [] then []
    else
      var n := |passed| - 1;
      EachFailures(passed[..n], message) + (if passed[n] then [] else [ValidationFailure(FileAt(n), message)])
  }

  /** The failures of the whole validator, rule by rule: the collection rule,
      then the size rule over every file, then the format rule over every file. */
  function Validate(files: seq<UploadFile>): seq<ValidationFailure> {
    (if |files| == 0 then [ValidationFailure(Files, NoFilesMessage)] else [])
    + EachFailures(SizeVerdicts(files), TooLargeMessage)
    + EachFailures(FormatVerdicts(files), InvalidFormatMessage)
  }

  /** The messages of a list of failures, in order (what ValidationException.Errors yields). */
  function Messages(fs: seq<ValidationFailure>): (r: seq<string>)
    ensures |r| == |fs|
    ensures forall k :: 0 <= k < |fs| ==> r[k] == fs[k].errorMessage
  {
    seq(|fs|, k requires 0 <= k < |fs| => fs[k].errorMessage)
  }

  /** Every file whose verdict is false is reported. */
  lemma {:induction false} EachFailuresComplete(passed: seq<bool>, message: string, i: nat)
    requires i < |passed| && !passed[i]
    ensures ValidationFailure(FileAt(i), message) in EachFailures(passed, message)
  {
    var n := |passed| - 1;
    if i < n {
      EachFailuresComplete(passed[..n], message, i);
    }
  }

  /** Per-file failures whose indices strictly increase. */
  predicate InFileOrder(r: seq<ValidationFailure>) {
    forall k, l :: 0 <= k < l < |r| ==>
      r[k].property.FileAt? && r[l].property.FileAt? && r[k].property.index < r[l].property.index
  }

  /** Failures are reported in file order, each file at most once. */
  lemma {:induction false} EachFailuresOrdered(passed: seq<bool>, message: string)
    ensures InFileOrder(EachFailures(passed, message))
  {
    if passed != [] {
      var n := |passed| - 1;
      EachFailuresOrdered(passed[..n], message);
      var prefix := EachFailures(passed[..n], message);
      var r := EachFailures(passed, message);
      assert r == prefix + (if passed[n] then [] else [ValidationFailure(FileAt(n), message)]);
      forall k, l | 0 <= k < l < |r|
        ensures r[k].property.index < r[l].property.index
      {
        assert r[k] == prefix[k] && prefix[k].property.index < n;
        if l < |prefix| {
          assert r[l] == prefix[l];
          assert prefix[k].property.index < prefix[l].property.index;
        } else {
          assert r[l] == ValidationFailure(FileAt(n), message);
        }
      }
    }
  }

  /** A rule reports nothing exactly when every verdict is true. */
  lemma {:induction false} EachFailuresEmpty(passed: seq<bool>, message: string)
    ensures EachFailures(passed, message) == [] <==> forall i :: 0 <= i < |passed| ==> passed[i]
  {
    if passed != [] {
      var n := |passed| - 1;
      EachFailuresEmpty(passed[..n], message);
      assert forall i :: 0 <= i < n ==> passed[..n][i] == passed[i];
    }
  }

  /** The validator accepts a collection exactly when it is non-empty and
      every file is within the size limit and has an allowed extension. */
  lemma ValidIff(files: seq<UploadFile>)
    ensures Validate(files) == [] <==>
      |files| > 0 && forall i :: 0 <= i < |files| ==> WithinSizeLimit(files[i]) && HasAllowedFormat(files[i])
  {
    EachFailuresEmpty(SizeVerdicts(files), TooLargeMessage);
    EachFailuresEmpty(FormatVerdicts(files), InvalidFormatMessage);
  }

  /** An empty collection fails the collection rule and nothing else. */
  lemma EmptyCollection(files: seq<UploadFile>)
    requires |files| == 0
    ensures Validate(files) == [ValidationFailure(Files, NoFilesMessage)]
  {
    assert SizeVerdicts(files) == [] && FormatVerdicts(files) == [];
  }

  /** What membership in one rule's failures tells about the failure. */
  lemma InEachFailures(passed: seq<bool>, message: string, f: ValidationFailure)
    requires f in EachFailures(passed, message)
    ensures f.property.FileAt? && f.property.index < |passed|
    ensures !passed[f.property.index] && f.errorMessage == message
  {
    var r := EachFailures(passed, message);
    var k :| 0 <= k < |r| && r[k] == f;
  }

  /** Both rules' failures over verdicts on n files name one of those files. */
  lemma RulesNameFiles(sv: seq<bool>, fv: seq<bool>, n: nat)
    requires |sv| == n && |fv| == n
    ensures forall f :: f in EachFailures(sv, TooLargeMessage) + EachFailures(fv, InvalidFormatMessage) ==>
      f.property.FileAt? && f.property.index < n
  {
    var a := EachFailures(sv, TooLargeMessage);
    var b := EachFailures(fv, InvalidFormatMessage);
    forall f: ValidationFailure | f in a + b
      ensures f.property.FileAt? && f.property.index < n
    {
      if f in a {
        InEachFailures(sv, TooLargeMessage, f);
      } else {
        InEachFailures(fv, InvalidFormatMessage, f);
      }
    }
  }

  /** In a non-empty collection every failure names one of its files. */
  lemma FailuresNameFiles(files: seq<UploadFile>)
    requires |files| > 0
    ensures forall f :: f in Validate(files) ==> f.property.FileAt? && f.property.index < |files|
  {
    var sv, fv := SizeVerdicts(files), FormatVerdicts(files);
    var both := EachFailures(sv, TooLargeMessage) + EachFailures(fv, InvalidFormatMessage);
    RulesNameFiles(sv, fv, |files|);
    assert Validate(files) == [] + both;
    forall f | f in Validate(files)
      ensures f.property.FileAt? && f.property.index < |files|
    {
      assert f in both;
    }
  }

  /** Each rule is applied to every file on its own: a file is reported by the
      size rule exactly when it is longer than 2 MiB, and by the format rule
      exactly when its extension is not allowed. */
  lemma PerFileReports(files: seq<UploadFile>, i: nat)
    requires i < |files|
    ensures ValidationFailure(FileAt(i), TooLargeMessage) in Validate(files) <==> !WithinSizeLimit(files[i])
    ensures ValidationFailure(FileAt(i), InvalidFormatMessage) in Validate(files) <==> !HasAllowedFormat(files[i])
  {
    var sv, fv := SizeVerdicts(files), FormatVerdicts(files);
    var a := EachFailures(sv, TooLargeMessage);
    var b := EachFailures(fv, InvalidFormatMessage);
    var c := if |files| == 0 then [ValidationFailure(Files, NoFilesMessage)] else [];
    assert Validate(files) == c + a + b;
    assert |TooLargeMessage| == 22;
    var tooLarge := ValidationFailure(FileAt(i), TooLargeMessage);
    var badFormat := ValidationFailure(FileAt(i), InvalidFormatMessage);
    if !WithinSizeLimit(files[i]) {
      EachFailuresComplete(sv, TooLargeMessage, i);
    } else if tooLarge in b {
      InEachFailures(fv, InvalidFormatMessage, tooLarge);
    } else if tooLarge in a {
      InEachFailures(sv, TooLargeMessage, tooLarge);
    }
    if !HasAllowedFormat(files[i]) {
      EachFailuresComplete(fv, InvalidFormatMessage, i);
    } else if badFormat in a {
      InEachFailures(sv, TooLargeMessage, badFormat);
    } else if badFormat in b {
      InEachFailures(fv, InvalidFormatMessage, badFormat);
    }
  }

  /** Extensions are compared after lower-casing, and the size limit is inclusive. */
  lemma FormatAndSizeExamples()
    ensures HasAllowedFormat(UploadFile("photo.JPG", 0))
    ensures !HasAllowedFormat(UploadFile("test.gif", 0))
    ensures !HasAllowedFormat(UploadFile("noext", 0))
    ensures Extension("trailing.") == ""
    ensures WithinSizeLimit(UploadFile("a.png", 2097152))
    ensures !WithinSizeLimit(UploadFile("a.png", 2097153))
  {
    ExtensionAt("photo.JPG", 5);
    assert "photo.JPG"[5..] == ".JPG";
    assert Lower(".JPG") == ".jpg";
    ExtensionAt("test.gif", 4);
    assert "test.gif"[4..] == ".gif";
    assert Lower(".gif") == ".gif";
    NoDotNoExtension("noext");
    assert Lower("") == "";
  }

  /** The three files of the validator's mixed test collection, one at a time. */
  lemma JpegVerdicts(f: UploadFile)
    requires f == UploadFile("test.jpg", 1048576)
    ensures WithinSizeLimit(f) && HasAllowedFormat(f)
  {
    ExtensionAt(f.fileName, 4);
    assert f.fileName[4..] == ".jpg";
    assert Lower(".jpg") == ".jpg";
  }

  lemma GifVerdicts(f: UploadFile)
    requires f == UploadFile("test.gif", 1048576)
    ensures WithinSizeLimit(f) && !HasAllowedFormat(f)
  {
    ExtensionAt(f.fileName, 4);
    assert f.fileName[4..] == ".gif";
    assert Lower(".gif") == ".gif";
  }

  lemma PngVerdicts(f: UploadFile)
    requires f == UploadFile("test.png", 3145728)
    ensures !WithinSizeLimit(f) && HasAllowedFormat(f)
  {
    ExtensionAt(f.fileName, 4);
    assert f.fileName[4..] == ".png";
    assert Lower(".png") == ".png";
  }

  /** The verdict sequences of a three-file collection are read off the
      verdicts on each file: here a passing file, a file of the wrong format
      and a file over the limit. */
  lemma MixedVerdicts(files: seq<UploadFile>)
    requires |files| == 3
    requires WithinSizeLimit(files[0]) && HasAllowedFormat(files[0])
    requires WithinSizeLimit(files[1]) && !HasAllowedFormat(files[1])
    requires !WithinSizeLimit(files[2]) && HasAllowedFormat(files[2])
    ensures SizeVerdicts(files) == [true, true, false]
    ensures FormatVerdicts(files) == [true, false, true]
  {
    var sv, fv := SizeVerdicts(files), FormatVerdicts(files);
    ThreeVerdicts(sv, true, true, false);
    ThreeVerdicts(fv, true, false, true);
  }

  lemma ThreeVerdicts(v: seq<bool>, a: bool, b: bool, c: bool)
    requires |v| == 3 && v[0] == a && v[1] == b && v[2] == c
    ensures v == [a, b, c]
  {
  }

  /** A rule reports exactly the files whose verdict is false, at their index. */
  lemma RuleOnVerdicts(message: string)
    ensures EachFailures([true, true, false], message) == [ValidationFailure(FileAt(2), message)]
    ensures EachFailures([true, false, true], message) == [ValidationFailure(FileAt(1), message)]
  {
    var size: seq<bool> := [true, true, false];
    var format: seq<bool> := [true, false, true];
    assert size[..2] == [true, true] && size[..2][..1] == [true] && size[..2][..1][..0] == [];
    assert format[..2] == [true, false] && format[..2][..1] == [true] && format[..2][..1][..0] == [];
  }

  /** The mixed collection reports both rules: the size failure for the PNG
      comes first, then the format failure for the GIF. */
  lemma MixedExample(files: seq<UploadFile>)
    requires |files| == 3
    requires files[0] == UploadFile("test.jpg", 1048576)
    requires files[1] == UploadFile("test.gif", 1048576)
    requires files[2] == UploadFile("test.png", 3145728)
    ensures Validate(files) == [ValidationFailure(FileAt(2), TooLargeMessage), ValidationFailure(FileAt(1), InvalidFormatMessage)]
  {
    JpegVerdicts(files[0]);
    GifVerdicts(files[1]);
    PngVerdicts(files[2]);
    MixedVerdicts(files);
    RuleOnVerdicts(TooLargeMessage);
    RuleOnVerdicts(InvalidFormatMessage);
  }
}
