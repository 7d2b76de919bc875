/** Trimming of white space, as `strings.TrimSpace` does it, and the extensions of paths. */
module Text {

  /** The white space of `unicode.IsSpace`. */
  predicate IsSpace(c: char) {
    || '\t' <= c <= '\r' || c == ' ' || c == '\U{85}' || c == '\U{A0}' || c == '\U{1680}'
    || '\U{2000}' <= c <= '\U{200A}' || c == '\U{2028}' || c == '\U{2029}' || c == '\U{202F}'
    || c == '\U{205F}' || c == '\U{3000}'
  }

  /** The same, character by character: tab, line feed, vertical tab, form feed, carriage
      return, space, next line, and the space separators of Unicode. */
  lemma WhiteSpace(c: char)
    ensures IsSpace(c) <==> c as int in {
                0x09, 0x0A, 0x0B, 0x0C, 0x0D, 0x20, 0x85, 0xA0, 0x1680, 0x2000, 0x2001, 0x2002, 0x2003, 0x2004,
                0x2005, 0x2006, 0x2007, 0x2008, 0x2009, 0x200A, 0x2028, 0x2029, 0x202F, 0x205F, 0x3000}
  {
  }

  function TrimLeft(s: string): string {
    if s != "" && IsSpace(s[0]) then TrimLeft(s[1..]) else s
  }

  function TrimRight(s: string): string {
    if s != "" && IsSpace(s[|s| - 1]) then TrimRight(s[..|s| - 1]) else s
  }

  function TrimSpace(s: string): string {
    TrimRight(TrimLeft(s))
  }

  /** A space put in front makes no difference. */
  lemma TrimSpacePrefix(s: string)
    ensures TrimSpace(" " + s) == TrimSpace(s)
  {
    assert (" " + s)[1..] == s;
  }

  lemma {:induction false} TrimLeftEnds(s: string)
    ensures TrimLeft(s) == "" || !IsSpace(TrimLeft(s)[0])
  {
    if s != "" && IsSpace(s[0]) {
      TrimLeftEnds(s[1..]);
    }
  }

  lemma {:induction false} TrimRightEnds(s: string)
    ensures TrimRight(s) <= s && (TrimRight(s) == "" || !IsSpace(TrimRight(s)[|TrimRight(s)| - 1]))
  {
    if s != "" && IsSpace(s[|s| - 1]) {
      TrimRightEnds(s[..|s| - 1]);
    }
  }

  /** What is trimmed stays as it is. */
  lemma TrimSpaceTwice(s: string)
    ensures TrimSpace(TrimSpace(s)) == TrimSpace(s)
  {
    var left := TrimLeft(s);
    TrimLeftEnds(s);
    TrimRightEnds(left);
    var t := TrimRight(left);
    assert t != "" ==> t[0] == left[0];
    assert TrimLeft(t) == t && TrimRight(t) == t;
  }

  lemma {:induction false} TrimLeftDrops(s: string) returns (n: nat)
    ensures n <= |s| && TrimLeft(s) == s[n..] && forall i :: 0 <= i < n ==> IsSpace(s[i])
  {
    if s != "" && IsSpace(s[0]) {
      var k := TrimLeftDrops(s[1..]);
      n := k + 1;
      assert s[1..][k..] == s[n..];
      forall i | 0 <= i < n ensures IsSpace(s[i]) {
        assert i > 0 ==> s[1..][i - 1] == s[i];
      }
    } else {
      n := 0;
    }
  }

  lemma {:induction false} TrimRightDrops(s: string) returns (n: nat)
    ensures n <= |s| && TrimRight(s) == s[..n] && forall i :: n <= i < |s| ==> IsSpace(s[i])
  {
    if s != "" && IsSpace(s[|s| - 1]) {
      n := TrimRightDrops(s[..|s| - 1]);
      assert s[..|s| - 1][..n] == s[..n];
    } else {
      n := |s|;
      assert s[..n] == s;
    }
  }

  /** Trimming takes the white space off both ends, all of it and nothing else. */
  lemma TrimSpaceIsExact(s: string) returns (lo: nat, hi: nat)
    ensures lo <= hi <= |s| && TrimSpace(s) == s[lo..hi]
    ensures forall i :: 0 <= i < lo || hi <= i < |s| ==> IsSpace(s[i])
    ensures lo < hi ==> !IsSpace(s[lo]) && !IsSpace(s[hi - 1])
  {
    lo := TrimLeftDrops(s);
    TrimLeftEnds(s);
    var left := s[lo..];
    var n := TrimRightDrops(left);
    TrimRightEnds(left);
    hi := lo + n;
    assert left[..n] == s[lo..hi];
    forall i | hi <= i < |s| ensures IsSpace(s[i]) {
      assert s[i] == left[i - lo];
    }
  }

  // ----- file extensions -----

  /** `path.Ext` and `filepath.Ext`: the suffix from the last dot of the last path element. */
  function Extension(path: string): string {
    if path == "" || path[|path| - 1] == '/' then ""
    else if path[|path| - 1] == '.' then "."
    else
      var rest := Extension(path[..|path| - 1]);
      if rest == "" then "" else rest + [path[|path| - 1]]
  }

  /** The extension runs from the last dot of the last path element to its end. */
  lemma {:induction false} ExtensionIsSuffix(path: string) returns (base: string)
    ensures path == base + Extension(path)
    ensures Extension(path) != ""
        ==> Extension(path)[0] == '.' && '.' !in Extension(path)[1..] && '/' !in Extension(path)
    ensures Extension(path) == "" ==> exists dir: nat :: IsLast(path, dir) && '.' !in path[dir..]
  {
    var n := |path| - 1;
    if path == "" {
      base := "";
      assert IsLast(path, 0);
    } else if path[n] == '/' {
      base := path;
      assert path + "" == path && IsLast(path, |path|);
    } else if path[n] == '.' {
      base := path[..n];
    } else {
      base := ExtensionIsSuffix(path[..n]);
      if Extension(path) == "" {
        base := path;
        assert path + "" == path;
        var dir: nat :| IsLast(path[..n], dir) && '.' !in path[..n][dir..];
        assert path[dir..] == path[..n][dir..] + [path[n]];
        assert IsLast(path, dir);
      }
    }
  }

  /** The last element of a path starts at `dir`. */
  predicate IsLast(path: string, dir: nat) {
    dir <= |path| && (dir == 0 || path[dir - 1] == '/') && '/' !in path[dir..]
  }
}
