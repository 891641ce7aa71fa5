/**
 * The string rules of the converter page: the output-file name derived in
 * `convertFile`, the `.mkv` test applied to dropped files, and the
 * `capitalizeFirst` helper that turns a status into its label.
 */
module Naming {
  import opened JsString

  const SourceExtension: string := ".mkv"
  const TargetExtension: string := ".mp4"

  /**
   * The output name of a conversion: the leftmost `.mkv` of the input name,
   * matched case-sensitively, becomes `.mp4`; a name without `.mkv` is kept.
   */
  function OutputName(inputName: string): (out: string)
    ensures |out| == |inputName|
    ensures Absent(inputName, SourceExtension) ==> out == inputName
    ensures forall i: nat :: FirstOccurrence(inputName, SourceExtension, i) ==>
              out == inputName[..i] + TargetExtension + inputName[i + 4..]
  {
    Replace(inputName, SourceExtension, TargetExtension)
  }

  /**
   * A name ending in `.mkv` with no other `.mkv` before it has exactly that
   * extension swapped: the output is the stem followed by `.mp4`.
   */
  lemma OutputNameSwapsExtension(name: string)
    requires EndsWith(name, SourceExtension)
    requires Absent(name[..|name| - 4], SourceExtension)
    ensures OutputName(name) == name[..|name| - 4] + TargetExtension
    ensures EndsWith(OutputName(name), TargetExtension)
  {
    var n := |name|;
    var stem := name[..n - 4];
    forall j: nat | j < n - 4
      ensures !OccursAt(name, SourceExtension, j)
    {
      if j + 4 <= n - 4 {
        assert name[j..j + 4] == stem[j..j + 4];
        assert !OccursAt(stem, SourceExtension, j);
      } else if j + 4 <= n {
        // An occurrence overlapping the final `.mkv` would need its `m`, `k` or `v` where that dot is.
        assert name[n - 4..][0] == '.';
        assert name[j..j + 4][n - 4 - j] == '.';
      }
    }
    assert name[n - 4..] == SourceExtension;
    assert FirstOccurrence(name, SourceExtension, n - 4);
  }

  /** A string in which no `.` is followed by `m` contains no `.mkv`. */
  lemma AbsentWithoutDotM(s: string)
    requires forall i :: 0 <= i < |s| - 1 ==> !(s[i] == '.' && s[i + 1] == 'm')
    ensures Absent(s, SourceExtension)
  {
    forall j: nat | j <= |s| ensures !OccursAt(s, SourceExtension, j) {
      if j + 4 <= |s| {
        assert s[j..j + 4][0] == s[j] && s[j..j + 4][1] == s[j + 1];
      }
    }
  }

  /** `movie.mkv` becomes `movie.mp4`. */
  lemma OutputNameOfMovie()
    ensures OutputName("movie.mkv") == "movie.mp4"
  {
    AbsentWithoutDotM("movie");
    assert "movie.mkv"[..5] == "movie";
    OutputNameSwapsExtension("movie.mkv");
  }

  /** Only the final extension of `archive.tar.mkv` changes. */
  lemma OutputNameOfDoubleExtension()
    ensures OutputName("archive.tar.mkv") == "archive.tar.mp4"
  {
    AbsentWithoutDotM("archive.tar");
    assert "archive.tar.mkv"[..11] == "archive.tar";
    OutputNameSwapsExtension("archive.tar.mkv");
  }

  /** A name without `.mkv` is kept as it is; no extension is appended. */
  lemma OutputNameWithoutExtension()
    ensures OutputName("noext") == "noext"
  {
    AbsentWithoutDotM("noext");
  }

  /** Only the leftmost `.mkv` is replaced: `a.mkv.mkv` becomes `a.mp4.mkv`. */
  lemma OutputNameReplacesFirstOnly()
    ensures OutputName("a.mkv.mkv") == "a.mp4.mkv"
  {
    var s := "a.mkv.mkv";
    assert s[1..5] == SourceExtension;
    assert s[0] != '.';
    assert FirstOccurrence(s, SourceExtension, 1);
    assert s[..1] + TargetExtension + s[5..] == "a.mp4.mkv";
  }

  /** The name test the drop zone applies: `name.toLowerCase().endsWith('.mkv')`. */
  predicate IsMkvName(name: string) {
    EndsWith(ToLowerCase(name), SourceExtension)
  }

  /** The drop test accepts exactly the names whose last four characters spell `.mkv` in any letter case. */
  lemma IsMkvNameByCharacters(name: string)
    ensures IsMkvName(name) <==>
      |name| >= 4 && name[|name| - 4] == '.'
      && (name[|name| - 3] == 'm' || name[|name| - 3] == 'M')
      && (name[|name| - 2] == 'k' || name[|name| - 2] == 'K')
      && (name[|name| - 1] == 'v' || name[|name| - 1] == 'V')
  {
    var lower := ToLowerCase(name);
    var n := |name|;
    if n >= 4 {
      assert lower[n - 4..][0] == lower[n - 4] && lower[n - 4..][1] == lower[n - 3];
      assert lower[n - 4..][2] == lower[n - 2] && lower[n - 4..][3] == lower[n - 1];
      if lower[n - 4] == '.' && lower[n - 3] == 'm' && lower[n - 2] == 'k' && lower[n - 1] == 'v' {
        assert lower[n - 4..] == SourceExtension;
      }
    }
  }

  /**
   * The drop test and the naming rule disagree on letter case: `MOVIE.MKV` is
   * accepted by the drop zone, yet its output name is the input name itself.
   */
  lemma UpperCaseExtensionKeepsName()
    ensures IsMkvName("MOVIE.MKV")
    ensures OutputName("MOVIE.MKV") == "MOVIE.MKV"
  {
    IsMkvNameByCharacters("MOVIE.MKV");
    AbsentWithoutDotM("MOVIE.MKV");
  }

  /** `s.charAt(0).toUpperCase() + s.slice(1)`; the empty string stays empty. */
  function CapitalizeFirst(s: string): (r: string)
    ensures |r| == |s|
    ensures |s| > 0 ==> r[1..] == s[1..] && !('a' <= r[0] <= 'z') && LowerChar(r[0]) == LowerChar(s[0])
  {
    if s == [] then [] else [UpperChar(s[0])] + s[1..]
  }

  /** Capitalising twice is capitalising once. */
  lemma CapitalizeFirstIdempotent(s: string)
    ensures CapitalizeFirst(CapitalizeFirst(s)) == CapitalizeFirst(s)
  {
    if s != [] {
      var c := CapitalizeFirst(s);
      assert c[0] == UpperChar(s[0]);
      assert UpperChar(UpperChar(s[0])) == UpperChar(s[0]);
      assert CapitalizeFirst(c) == [UpperChar(c[0])] + c[1..];
    }
  }
}
