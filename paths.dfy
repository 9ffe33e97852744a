/** The parts of Python's `os.path` (Windows flavour) that the scripts use on file names. */
module Paths {
  import opened Sequences
  import opened Strings

  /** Windows accepts both the backslash and the slash as separators. */
  predicate IsSeparator(c: char) {
    c == '\\' || c == '/'
  }

  /** The path starts with a drive, as in `D:`. */
  predicate HasDrive(p: string) {
    |p| >= 2 && p[1] == ':'
  }

  /** A drive followed by a separator, as in `D:\iNaturalist`. */
  predicate IsAbsolute(p: string) {
    HasDrive(p) && |p| >= 3 && IsSeparator(p[2])
  }

  /** A rooted path starts with a separator, as in `\\b`; it may lack a drive. */
  predicate IsRooted(p: string) {
    |p| > 0 && IsSeparator(p[0])
  }

  /** A name as a directory listing returns it: no separator and no drive colon. */
  predicate IsPlainName(name: string) {
    forall i :: 0 <= i < |name| ==> !IsSeparator(name[i]) && name[i] != ':'
  }

  /**
   * `os.path.join(a, b)`: an absolute `b` replaces `a`; a `b` rooted without a drive keeps only
   * the drive of `a`; otherwise `b` is appended to `a`, with a backslash in between unless `a`
   * is empty, a bare drive, or already ends in a separator.
   */
  function JoinPath(a: string, b: string): (r: string)
    ensures IsAbsolute(b) ==> r == b
    ensures !IsAbsolute(b) && IsRooted(b) ==> EndsWith(r, b) && |r| == |b| + (if HasDrive(a) then 2 else 0)
    ensures !IsAbsolute(b) && IsRooted(b) && HasDrive(a) ==> IsAbsolute(r) && r[..2] == a[..2]
    ensures !IsAbsolute(b) && !IsRooted(b) ==> StartsWith(r, a) && EndsWith(r, b) && |a| + |b| <= |r| <= |a| + |b| + 1
    ensures !IsAbsolute(b) && !IsRooted(b) ==>
      && (r == a + b || r == a + "\\" + b)
      && (r == a + "\\" + b <==> a != [] && !IsSeparator(a[|a| - 1]) && !(HasDrive(a) && |a| == 2))
  {
    if IsAbsolute(b) then b
    else if IsRooted(b) then (if HasDrive(a) then a[..2] + b else b)
    else if a == [] || IsSeparator(a[|a| - 1]) || (HasDrive(a) && |a| == 2) then a + b
    else a + "\\" + b
  }

  /** `[os.path.join(folder, n) for n in names]`: each name joined to the folder, in order. */
  function JoinEach(folder: string, names: seq<string>): (paths: seq<string>)
    ensures |paths| == |names|
    ensures forall k :: 0 <= k < |names| ==> paths[k] == JoinPath(folder, names[k])
  {
    seq(|names|, k requires 0 <= k < |names| => JoinPath(folder, names[k]))
  }

  /** Joined onto a folder, each listed name is the base name of its path. */
  lemma JoinEachBaseNames(folder: string, names: seq<string>)
    requires forall k :: 0 <= k < |names| ==> IsPlainName(names[k])
    ensures forall k :: 0 <= k < |names| ==> BaseName(JoinEach(folder, names)[k]) == names[k]
  {
    forall k | 0 <= k < |names| ensures BaseName(JoinEach(folder, names)[k]) == names[k] {
      BaseNameOfJoin(folder, names[k]);
    }
  }

  /** Joining any name onto an absolute folder gives an absolute path, on the folder's drive unless the name is itself absolute. */
  lemma JoinedIsAbsolute(folder: string, name: string)
    requires IsAbsolute(folder)
    ensures IsAbsolute(JoinPath(folder, name))
    ensures IsAbsolute(name) || JoinPath(folder, name)[..2] == folder[..2]
  {
    var p := JoinPath(folder, name);
    if !IsAbsolute(name) && !IsRooted(name) {
      assert p[..|folder|] == folder;
      assert p[1] == folder[1] && p[2] == folder[2];
    }
  }

  /** `os.path.basename(p)`: the drive is dropped, then the part after the last separator is kept. */
  function BaseName(p: string): (r: string)
    ensures forall i :: 0 <= i < |r| ==> !IsSeparator(r[i])
    ensures EndsWith(p, r)
  {
    var q := if HasDrive(p) then p[2..] else p;
    assert q == p[|p| - |q|..];
    q[LastSeparator(q) + 1..]
  }

  /** In a separator-terminated prefix followed by a plain name, the last separator ends the prefix. */
  lemma LastSeparatorBeforeName(x: string, name: string)
    requires |x| >= 1 && IsSeparator(x[|x| - 1]) && IsPlainName(name)
    ensures LastSeparator(x + name) == |x| - 1
  {
    var p := x + name;
    assert IsSeparator(p[|x| - 1]);
    forall j | |x| <= j < |p| ensures !IsSeparator(p[j]) {
      assert p[j] == name[j - |x|];
    }
  }

  /** A plain name has no separator. */
  lemma LastSeparatorOfPlain(name: string)
    requires IsPlainName(name)
    ensures LastSeparator(name) == -1
  {
  }

  /** A separator-terminated prefix followed by a plain name: the base name is that name. */
  lemma BaseNameAfterSeparator(x: string, name: string)
    requires |x| >= 1 && IsSeparator(x[|x| - 1]) && IsPlainName(name)
    ensures BaseName(x + name) == name
  {
    var r := x + name;
    if HasDrive(r) {
      assert |x| >= 3;
      assert r[2..] == x[2..] + name;
      LastSeparatorBeforeName(x[2..], name);
      assert r[2..][|x| - 2..] == name;
    } else {
      LastSeparatorBeforeName(x, name);
      assert r[|x|..] == name;
    }
  }

  /** The base name of a listed file joined onto any folder is the listed name. */
  lemma BaseNameOfJoin(dir: string, name: string)
    requires IsPlainName(name)
    ensures BaseName(JoinPath(dir, name)) == name
  {
    assert !HasDrive(name) by {
      if |name| >= 2 { assert name[1] != ':'; }
    }
    if dir == [] {
      assert JoinPath(dir, name) == name;
      LastSeparatorOfPlain(name);
    } else if IsSeparator(dir[|dir| - 1]) {
      assert JoinPath(dir, name) == dir + name;
      BaseNameAfterSeparator(dir, name);
    } else if HasDrive(dir) && |dir| == 2 {
      var r := dir + name;
      assert JoinPath(dir, name) == r;
      assert r[2..] == name;
      LastSeparatorOfPlain(name);
    } else {
      var x := dir + "\\";
      assert JoinPath(dir, name) == x + name;
      BaseNameAfterSeparator(x, name);
    }
  }

  /** Index of the last separator, or -1. */
  function LastSeparator(p: string): (i: int)
    ensures -1 <= i < |p|
    ensures i >= 0 ==> IsSeparator(p[i])
    ensures forall j :: i < j < |p| ==> !IsSeparator(p[j])
  {
    if p == [] then -1
    else if IsSeparator(p[|p| - 1]) then |p| - 1
    else LastSeparator(p[..|p| - 1])
  }

  /**
   * `os.path.splitext(p)`: the extension runs from the last dot of the final component to the
   * end, unless every character of that component before the dot is itself a dot.
   */
  function SplitExt(p: string): (r: (string, string))
    ensures r.0 + r.1 == p
    ensures r.1 == [] || (r.1[0] == '.' && '.' !in r.1[1..])
    ensures forall i :: 0 <= i < |r.1| ==> !IsSeparator(r.1[i])
  {
    var sep := LastSeparator(p);
    var dot := LastIndexOf(p, '.');
    if dot > sep && exists j :: sep < j < dot && p[j] != '.' then
      assert p[..dot] + p[dot..] == p;
      (p[..dot], p[dot..])
    else
      (p, "")
  }

  /** A name ending in a dot and an extension without dots or separators splits at that dot. */
  lemma SplitExtAtLastDot(root: string, ext: string)
    requires |root| >= 1 && root[|root| - 1] != '.' && !IsSeparator(root[|root| - 1])
    requires forall i :: 0 <= i < |ext| ==> ext[i] != '.' && !IsSeparator(ext[i])
    ensures SplitExt(root + "." + ext) == (root, "." + ext)
  {
    var p := root + "." + ext;
    var dot := |root|;
    assert p[dot] == '.';
    forall j | dot < j < |p| ensures p[j] != '.' && !IsSeparator(p[j]) {
      assert p[j] == ext[j - dot - 1];
    }
    assert LastIndexOf(p, '.') == dot;
    var sep := LastSeparator(p);
    assert p[dot - 1] == root[|root| - 1];
    assert sep < dot - 1;
    assert p[..dot] == root && p[dot..] == "." + ext;
  }
}
