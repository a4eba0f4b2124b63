/**
  The string handling behind CreatePresetFromFile: splitting a URL into its
  scheme and the rest at the first "://", and taking the extension of a path
  as the text after its last '.'.
 */
module Urls {
  import opened Exceptions

  const SEPARATOR: string := "://"

  /** The scheme separator occurs in `s` starting at index `i`. */
  predicate SeparatorAt(s: string, i: nat) {
    i + |SEPARATOR| <= |s| && s[i..i + |SEPARATOR|] == SEPARATOR
  }

  /** `s` contains the scheme separator somewhere. */
  predicate HasSeparator(s: string) {
    exists i: nat :: i < |s| && SeparatorAt(s, i)
  }

  /** The first index at or after `from` where the separator starts, if any. */
  function FindSeparator(s: string, from: nat): (r: Option<nat>)
    requires from <= |s|
    ensures r.Some? ==> from <= r.value && SeparatorAt(s, r.value)
    ensures r.Some? ==> forall j: nat :: from <= j < r.value ==> !SeparatorAt(s, j)
    ensures r.None? ==> forall j: nat :: from <= j ==> !SeparatorAt(s, j)
    decreases |s| - from
  {
    if from + |SEPARATOR| > |s| then None
    else if s[from..from + |SEPARATOR|] == SEPARATOR then Some(from)
    else FindSeparator(s, from + 1)
  }

  /** A URL split into its scheme (absent for a bare path) and the text after "://". */
  datatype Url = Url(scheme: Option<string>, rest: string)

  /**
    Splits `s` at the first "://". Without a separator `s` is a bare path.
    The scheme never contains the separator itself.
   */
  function SplitUrl(s: string): (u: Url)
    ensures u.scheme.None? ==> u.rest == s && !HasSeparator(s)
    ensures u.scheme.Some? ==> s == u.scheme.value + SEPARATOR + u.rest
    ensures u.scheme.Some? ==> !HasSeparator(u.scheme.value)
  {
    match FindSeparator(s, 0)
    case None => Url(None, s)
    case Some(i) =>
      var scheme := s[..i];
      assert s == scheme + SEPARATOR + s[i + |SEPARATOR|..];
      assert !HasSeparator(scheme) by {
        forall j: nat | SeparatorAt(scheme, j) ensures false {
          assert s[j..j + |SEPARATOR|] == scheme[j..j + |SEPARATOR|];
          assert SeparatorAt(s, j);
        }
      }
      Url(Some(scheme), s[i + |SEPARATOR|..])
  }

  /** A bare path is split into no scheme and the path itself. */
  lemma SplitBarePath(s: string)
    requires !HasSeparator(s)
    ensures SplitUrl(s) == Url(None, s)
  {
    var u := SplitUrl(s);
    if u.scheme.Some? {
      assert false;
    }
  }

  /**
    Splitting `scheme + "://" + rest` recovers `scheme` and `rest`, whatever
    `rest` holds, as long as `scheme` holds no separator of its own. This is
    the inverse of joining a scheme to the rest of a URL.
   */
  lemma {:induction false} SplitJoined(scheme: string, rest: string)
    requires !HasSeparator(scheme)
    ensures SplitUrl(scheme + SEPARATOR + rest) == Url(Some(scheme), rest)
  {
    var s := scheme + SEPARATOR + rest;
    var n := |scheme|;
    assert s[n..n + |SEPARATOR|] == SEPARATOR;
    assert SeparatorAt(s, n);
    forall j: nat | j < n ensures !SeparatorAt(s, j) {
      if j + |SEPARATOR| <= n {
        // a separator inside the scheme, which has none
        assert s[j..j + |SEPARATOR|] == scheme[j..j + |SEPARATOR|];
        assert !SeparatorAt(scheme, j);
      } else if j + |SEPARATOR| <= |s| {
        // a separator straddling the joint would need the ':' at s[n] to be a '/'
        assert s[j..j + |SEPARATOR|][n - j] == s[n] == ':';
      }
    }
    assert FindSeparator(s, 0) == Some(n);
    assert s[..n] == scheme;
    assert s[n + |SEPARATOR|..] == rest;
  }

  /** A string without a ':' holds no separator; in particular the schemes "idle" and "file". */
  lemma NoColonNoSeparator(s: string)
    requires ':' !in s
    ensures !HasSeparator(s)
  {
    forall j: nat | j < |s| ensures !SeparatorAt(s, j) {
      if j + |SEPARATOR| <= |s| {
        assert s[j..j + |SEPARATOR|][0] == s[j] != ':';
      }
    }
  }

  /** The index of the last '.' in `s`, if any. */
  function LastDot(s: string): (r: Option<nat>)
    ensures r.Some? ==> r.value < |s| && s[r.value] == '.'
    ensures r.Some? ==> forall j :: r.value < j < |s| ==> s[j] != '.'
    ensures r.None? ==> forall j :: 0 <= j < |s| ==> s[j] != '.'
  {
    if |s| == 0 then None
    else if s[|s| - 1] == '.' then Some(|s| - 1)
    else LastDot(s[..|s| - 1])
  }

  /**
    The extension of a path: the non-empty text after its last '.'. A path
    without a '.', or ending in one, has no extension.
   */
  function ParseExtension(path: string): (ext: Option<string>)
    ensures ext.Some? ==> ext.value != [] && '.' !in ext.value
    ensures ext.Some? ==> |ext.value| < |path| && path[|path| - |ext.value| - 1] == '.'
    ensures ext.Some? ==> path[|path| - |ext.value|..] == ext.value
    ensures ext.None? ==> '.' !in path || path[|path| - 1] == '.'
  {
    match LastDot(path)
    case None => None
    case Some(i) =>
      if i == |path| - 1 then None
      else
        var ext := path[i + 1..];
        assert forall k :: 0 <= k < |ext| ==> ext[k] == path[i + 1 + k];
        Some(ext)
  }

  /**
    Joining a stem and a dot-free, non-empty extension with '.' gives a path
    whose extension is exactly that extension: ParseExtension inverts the join.
   */
  lemma {:induction false} ExtensionOfJoined(stem: string, ext: string)
    requires ext != [] && '.' !in ext
    ensures ParseExtension(stem + "." + ext) == Some(ext)
  {
    var path := stem + "." + ext;
    var d := |stem|;
    assert path[d] == '.';
    forall j | d < j < |path| ensures path[j] != '.' {
      assert path[j] == ext[j - d - 1];
    }
    var r := LastDot(path);
    assert r.Some? && r.value == d;
    assert path[d + 1..] == ext;
  }
}
