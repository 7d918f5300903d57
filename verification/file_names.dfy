/**
 * File names and their extensions, following Kotlin's `File.extension`:
 * the text after the last `'.'` of the name, or the empty string when the
 * name has no dot at all.
 */
module FileNames {

  /**
   * The index of the last occurrence of `c` among the first `n` characters
   * of `s`, or -1 when there is none.
   */
  function LastIndexBefore(s: string, c: char, n: nat): (r: int)
    requires n <= |s|
    ensures -1 <= r < n
    ensures r == -1 ==> forall j :: 0 <= j < n ==> s[j] != c
    ensures 0 <= r ==> s[r] == c && forall j :: r < j < n ==> s[j] != c
  {
    if n == 0 then -1
    else if s[n - 1] == c then n - 1
    else LastIndexBefore(s, c, n - 1)
  }

  /** Kotlin's `lastIndexOf`: the index of the last `c` in `s`, or -1 when `c` does not occur. */
  function LastIndexOf(s: string, c: char): (r: int)
    ensures -1 <= r < |s|
    ensures r == -1 <==> c !in s
    ensures 0 <= r ==> s[r] == c && c !in s[r + 1..]
  {
    LastIndexBefore(s, c, |s|)
  }

  /**
   * `ext` is the extension of `name`: either the name has a dot, `ext` is
   * everything after one of its dots and holds no dot itself; or the name
   * has no dot and `ext` is empty.
   */
  ghost predicate IsExtension(name: string, ext: string) {
    if '.' in name then
      && '.' !in ext
      && exists i :: 0 <= i < |name| && name[i] == '.' && name[i + 1..] == ext
    else
      ext == ""
  }

  /** Kotlin's `File.extension`, i.e. `name.substringAfterLast('.', "")`. */
  function Extension(name: string): (ext: string)
    ensures IsExtension(name, ext)
  {
    var i := LastIndexOf(name, '.');
    if i == -1 then "" else name[i + 1..]
  }

  /** A name has only one extension. */
  lemma ExtensionUnique(name: string, e1: string, e2: string)
    requires IsExtension(name, e1) && IsExtension(name, e2)
    ensures e1 == e2
  {
    if '.' in name {
      var i1 :| 0 <= i1 < |name| && name[i1] == '.' && name[i1 + 1..] == e1;
      var i2 :| 0 <= i2 < |name| && name[i2] == '.' && name[i2 + 1..] == e2;
      assert i1 == i2;
    }
  }

  /** The extension is always the part after the last dot of the name. */
  lemma ExtensionCharacterized(name: string, ext: string)
    ensures Extension(name) == ext <==> IsExtension(name, ext)
  {
    if IsExtension(name, ext) {
      ExtensionUnique(name, Extension(name), ext);
    }
  }

  /** Joining a stem and a dot-free extension with a dot gives back that extension. */
  lemma ExtensionOfJoin(stem: string, ext: string)
    requires '.' !in ext
    ensures Extension(stem + "." + ext) == ext
  {
    var name := stem + "." + ext;
    assert name[|stem|] == '.';
    assert name[|stem| + 1..] == ext;
    ExtensionCharacterized(name, ext);
  }
}
