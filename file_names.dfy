/**
 * The about page's file names: the picked file's name without its extension
 * (`name.split(".").slice(0, -1).join(".")`) and the name it saves under.
 */
module FileNames {

  /** `s.split([sep])`: the pieces between separators; never empty, and `[""]` for `""`. */
  function Split(s: string, sep: char): (parts: seq<string>)
    ensures |parts| >= 1
    ensures forall i :: 0 <= i < |parts| ==> sep !in parts[i]
    ensures |parts| == 1 <==> sep !in s
  {
    if |s| == 0 then [""]
    else if s[0] == sep then [""] + Split(s[1..], sep)
    else
      var rest := Split(s[1..], sep);
      [[s[0]] + rest[0]] + rest[1..]
  }

  /** `parts.join(sep)`; the empty list joins to `""`. */
  function Join(parts: seq<string>, sep: char): (s: string)
    ensures |parts| == 0 ==> s == ""
    ensures |parts| == 1 ==> s == parts[0]
    ensures |parts| > 0 ==> parts[0] <= s
    ensures |parts| > 1 ==> sep in s
  {
    if |parts| == 0 then ""
    else if |parts| == 1 then parts[0]
    else parts[0] + [sep] + Join(parts[1..], sep)
  }

  /** Joining the pieces of a split with the same separator gives back the string. */
  lemma {:induction false} JoinSplit(s: string, sep: char)
    ensures Join(Split(s, sep), sep) == s
  {
    if |s| > 0 {
      JoinSplit(s[1..], sep);
      var rest := Split(s[1..], sep);
      if s[0] == sep {
        assert s == [sep] + s[1..];
      } else {
        assert Split(s, sep)[1..] == rest[1..];
        if |rest| == 1 {
          assert s == [s[0]] + rest[0];
        } else {
          assert Join(rest, sep) == rest[0] + [sep] + Join(rest[1..], sep);
          assert s == [s[0]] + s[1..];
        }
      }
    }
  }

  /** A join of two or more pieces is the join of all but the last, the separator, and the last. */
  lemma {:induction false} JoinLast(parts: seq<string>, sep: char)
    requires |parts| >= 2
    ensures Join(parts, sep) == Join(parts[..|parts| - 1], sep) + [sep] + parts[|parts| - 1]
    decreases |parts|
  {
    if |parts| > 2 {
      JoinLast(parts[1..], sep);
      assert parts[1..][..|parts[1..]| - 1] == parts[..|parts| - 1][1..];
    }
  }

  /**
   * The picked file's name without its last extension. A name with no dot gives `""`;
   * otherwise the result is everything before the last dot, so inner dots are kept.
   */
  function BaseName(name: string): (base: string)
    ensures '.' !in name ==> base == ""
    ensures '.' in name ==>
              && |base| < |name| && name[..|base|] == base && name[|base|] == '.'
              && '.' !in name[|base| + 1..]
  {
    var parts := Split(name, '.');
    var base := Join(parts[..|parts| - 1], '.');
    assert '.' in name ==> name == base + ['.'] + parts[|parts| - 1] by {
      if '.' in name {
        JoinSplit(name, '.');
        JoinLast(parts, '.');
      }
    }
    base
  }

  /** The suffix the converted image is saved under. */
  const BwSuffix: string := "-bw.jpg"

  /** The name the about page shares or downloads the converted image as. */
  function BwFileName(imageName: string): (fileName: string)
    ensures |fileName| == |imageName| + 7
    ensures fileName[..|imageName|] == imageName && fileName[|imageName|..] == "-bw.jpg"
  {
    imageName + BwSuffix
  }

  /** Two dots: only the last extension goes. */
  lemma BaseNameKeepsInnerDots()
    ensures BaseName("a.b.png") == "a.b"
  {
    var base := BaseName("a.b.png");
    assert "a.b.png"[..|base|] == base && "a.b.png"[|base|] == '.';
    assert '.' !in "a.b.png"[|base| + 1..];
    assert "a.b.png"[1] == '.' && "a.b.png"[3] == '.';
  }

  /** A name that is all extension, such as `.png`, has an empty base. */
  lemma BaseNameOfDotFile()
    ensures BaseName(".png") == ""
  {
    var base := BaseName(".png");
    assert ".png"[0] == '.';
  }
}
