/**
 * The part of pathlib that request validation and the kwargs builder read:
 * a path's final component, its suffix and its stem.
 */
module Paths {
  import opened Text

  /** A filesystem path, held as the text pathlib prints for it (`str(path)`). */
  datatype Path = Path(text: string)

  /**
   * `name` is the final component of `text`: the longest tail of `text` that holds no '/',
   * so it is either all of `text` or preceded by a '/'.
   */
  predicate FinalComponent(text: string, name: string)
  {
    && '/' !in name
    && |name| <= |text| && name == text[|text| - |name|..]
    && (|name| == |text| || text[|text| - |name| - 1] == '/')
  }

  /** `path.name`: the final component, everything after the last '/'. */
  function Name(p: Path): (name: string)
    ensures '/' !in name
    ensures |name| <= |p.text| && name == p.text[|p.text| - |name|..]
  {
    var i := RFind(p.text, '/');
    p.text[i + 1..]
  }

  /**
   * The index of the dot that starts the suffix of `name`, or -1 when there is none:
   * the last dot counts only when it is neither the first nor the last character.
   */
  function SuffixDot(name: string): (i: int)
    ensures i == -1 || (0 < i < |name| - 1 && name[i] == '.')
    ensures i != -1 ==> forall j :: i < j < |name| ==> name[j] != '.'
  {
    var i := RFind(name, '.');
    if 0 < i < |name| - 1 then i else -1
  }

  /** The name is the whole final component: the text after the last '/', or all of it. */
  lemma NameIsFinalComponent(p: Path)
    ensures FinalComponent(p.text, Name(p))
  {
    var i := RFind(p.text, '/');
    assert |Name(p)| == |p.text| - (i + 1);
  }

  /** `path.suffix`: empty, or a dot followed by at least one character and no further dot. */
  function Suffix(p: Path): (suffix: string)
    ensures suffix == "" || (|suffix| >= 2 && suffix[0] == '.' && '.' !in suffix[1..])
  {
    var name := Name(p);
    var i := SuffixDot(name);
    if i == -1 then ""
    else
      assert forall j :: 0 <= j < |name| - (i + 1) ==> name[i..][1..][j] == name[i + 1 + j];
      name[i..]
  }

  /** `path.stem`: the final component without its suffix. */
  function Stem(p: Path): (stem: string)
    ensures stem <= Name(p)
  {
    var name := Name(p);
    var i := SuffixDot(name);
    if i == -1 then name else name[..i]
  }

  /** The stem followed by the suffix gives back the whole final component. */
  lemma StemThenSuffixIsName(p: Path)
    ensures Stem(p) + Suffix(p) == Name(p)
  {
    var name := Name(p);
    var i := SuffixDot(name);
    if i != -1 {
      assert name[..i] + name[i..] == name;
    }
  }

  /** A suffix always has a stem before it: a name such as ".pt" is all stem. */
  lemma SuffixHasStem(p: Path)
    ensures Suffix(p) != "" ==> Stem(p) != ""
  {
    var i := SuffixDot(Name(p));
    if i != -1 {
      assert |Stem(p)| == i;
    }
  }

  /** The ending a name has exactly when its suffix lower-cases to ".pt". */
  predicate EndsInPt(n: string)
  {
    |n| >= 4 && n[|n| - 3] == '.' && LowerChar(n[|n| - 2]) == 'p' && LowerChar(n[|n| - 1]) == 't'
  }

  lemma PtSuffixHasPtEnding(p: Path)
    requires Lower(Suffix(p)) == ".pt"
    ensures EndsInPt(Name(p))
  {
    var n := Name(p);
    var i := SuffixDot(n);
    var s := Suffix(p);
    assert i != -1 && s == n[i..];
    assert |s| == 3;
    assert n[|n| - 3] == s[0];
    assert LowerChar(n[|n| - 2]) == Lower(s)[1];
    assert LowerChar(n[|n| - 1]) == Lower(s)[2];
  }

  lemma PtEndingHasPtSuffix(p: Path)
    requires EndsInPt(Name(p))
    ensures Lower(Suffix(p)) == ".pt"
  {
    var n := Name(p);
    var k := |n| - 3;
    assert LowerChar('.') == '.';
    assert n[k + 1] != '.' && n[k + 2] != '.';
    var r := RFind(n, '.');
    assert r == k;
    assert SuffixDot(n) == k;
    var s := Suffix(p);
    assert s == n[k..];
    var l := Lower(s);
    assert l[0] == '.' && l[1] == LowerChar(n[k + 1]) && l[2] == LowerChar(n[k + 2]);
    assert l == ".pt";
  }

  /**
   * The check `path.suffix.lower() == ".pt"` holds exactly when the final component is at
   * least four characters long and ends in a dot, a 'p' or 'P', and a 't' or 'T'.
   */
  lemma PtSuffixCheck(p: Path)
    ensures Lower(Suffix(p)) == ".pt" <==>
      (var n := Name(p);
       |n| >= 4 && n[|n| - 3] == '.' && LowerChar(n[|n| - 2]) == 'p' && LowerChar(n[|n| - 1]) == 't')
  {
    if Lower(Suffix(p)) == ".pt" {
      PtSuffixHasPtEnding(p);
    }
    if EndsInPt(Name(p)) {
      PtEndingHasPtSuffix(p);
    }
  }
}
