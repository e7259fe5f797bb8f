/** String operations of the Python standard library that esmero relies on,
    written out so that their edge cases are explicit. */
module Text {

  predicate StartsWith(s: string, prefix: string) {
    |prefix| <= |s| && s[..|prefix|] == prefix
  }

  /** `s.endswith(suffix)` */
  predicate EndsWith(s: string, suffix: string) {
    |suffix| <= |s| && s[|s| - |suffix|..] == suffix
  }

  /** `sub in s` on two strings: a substring test (the empty string is in
      every string), as a scan of the suffixes of s. */
  predicate Contains(s: string, sub: string)
    decreases |s|
  {
    StartsWith(s, sub) || (s != [] && Contains(s[1..], sub))
  }

  predicate OccursAt(s: string, sub: string, i: int)
    requires 0 <= i <= |s| - |sub|
  {
    s[i..i + |sub|] == sub
  }

  /** The scan finds sub exactly when it occurs at some position of s. */
  lemma {:induction false} ContainsOccurs(s: string, sub: string)
    ensures Contains(s, sub) <==> exists i :: 0 <= i <= |s| - |sub| && OccursAt(s, sub, i)
    decreases |s|
  {
    if StartsWith(s, sub) {
      assert s[0..|sub|] == s[..|sub|];
      assert OccursAt(s, sub, 0);
    }
    if s != [] {
      ContainsOccurs(s[1..], sub);
      if Contains(s[1..], sub) {
        var i :| 0 <= i <= |s[1..]| - |sub| && OccursAt(s[1..], sub, i);
        assert s[1..][i..i + |sub|] == s[i + 1..i + 1 + |sub|];
        assert OccursAt(s, sub, i + 1);
      }
      if exists i :: 0 <= i <= |s| - |sub| && OccursAt(s, sub, i) {
        var i :| 0 <= i <= |s| - |sub| && OccursAt(s, sub, i);
        if i > 0 {
          assert s[1..][i - 1..i - 1 + |sub|] == s[i..i + |sub|];
          assert OccursAt(s[1..], sub, i - 1);
        } else {
          assert s[0..|sub|] == s[..|sub|];
        }
      }
    } else if exists i :: 0 <= i <= |s| - |sub| && OccursAt(s, sub, i) {
      var i :| 0 <= i <= |s| - |sub| && OccursAt(s, sub, i);
      assert s[0..|sub|] == s[..|sub|];
    }
  }

  /** The slice `s[:-n]` for n > 0: everything but the last n characters,
      or the empty string when s is shorter. */
  function DropLast(s: string, n: nat): (r: string)
    ensures |s| >= n ==> r + s[|s| - n..] == s
    ensures |s| < n ==> r == ""
  {
    if |s| >= n then s[..|s| - n] else ""
  }

  /** `os.path.basename(p)`: what follows the last '/', or all of p when it
      has none. */
  function Basename(p: string): string {
    if p == [] || p[|p| - 1] == '/' then "" else Basename(p[..|p| - 1]) + [p[|p| - 1]]
  }

  /** The basename is the last path component: a suffix of the path with no
      '/' in it, preceded by a '/' whenever it is not the whole path. */
  lemma {:induction false} BasenameIsLastComponent(p: string)
    ensures var r := Basename(p);
            '/' !in r && |r| <= |p| && r == p[|p| - |r|..] &&
            (|r| < |p| ==> p[|p| - |r| - 1] == '/')
    decreases |p|
  {
    if p != [] && p[|p| - 1] != '/' {
      var q := p[..|p| - 1];
      BasenameIsLastComponent(q);
      var r := Basename(q);
      assert Basename(p) == r + [p[|p| - 1]];
      assert q[|q| - |r|..] == r;
      assert p[|p| - |r| - 1..] == q[|q| - |r|..] + [p[|p| - 1]];
      if |r| < |q| {
        assert p[|p| - |r| - 2] == q[|q| - |r| - 1];
      }
    }
  }

  /** `os.path.join(dir, name)` with two components on POSIX. */
  function PathJoin(dir: string, name: string): string {
    if StartsWith(name, "/") then name
    else if dir == "" || EndsWith(dir, "/") then dir + name
    else dir + "/" + name
  }

  lemma PathJoinEndsWith(dir: string, name: string, suffix: string)
    requires EndsWith(name, suffix)
    ensures EndsWith(PathJoin(dir, name), suffix)
  {
    var p := PathJoin(dir, name);
    assert p[|p| - |name|..] == name;
    assert p[|p| - |suffix|..] == name[|name| - |suffix|..];
  }

  /** `s.split('.')`: the pieces between the dots, always at least one. */
  function SplitDots(s: string): (r: seq<string>)
    ensures |r| >= 1
    ensures forall i :: 0 <= i < |r| ==> '.' !in r[i]
    ensures |r| == 1 + Dots(s)
    decreases |s|
  {
    if s == [] then [""]
    else
      var rest := SplitDots(s[1..]);
      if s[0] == '.' then [""] + rest
      else
        assert forall i :: 1 <= i < |rest| ==> ([[s[0]] + rest[0]] + rest[1..])[i] == rest[i];
        [[s[0]] + rest[0]] + rest[1..]
  }

  /** The number of dots in s. */
  function Dots(s: string): nat {
    if s == [] then 0 else (if s[0] == '.' then 1 else 0) + Dots(s[1..])
  }

  /** `'.'.join(parts)` */
  function JoinDots(parts: seq<string>): string
    requires |parts| >= 1
  {
    if |parts| == 1 then parts[0] else parts[0] + "." + JoinDots(parts[1..])
  }

  /** Splitting a dotted name and joining the pieces gives the name back. */
  lemma {:induction false} JoinSplit(s: string)
    ensures JoinDots(SplitDots(s)) == s
    decreases |s|
  {
    if s != [] {
      JoinSplit(s[1..]);
      var rest := SplitDots(s[1..]);
      if s[0] == '.' {
        assert SplitDots(s) == [""] + rest;
        assert JoinDots(SplitDots(s)) == "" + "." + JoinDots(rest);
      } else {
        var r := [[s[0]] + rest[0]] + rest[1..];
        assert SplitDots(s) == r;
        if |rest| == 1 {
          assert JoinDots(r) == [s[0]] + rest[0];
        } else {
          assert r[1..] == rest[1..];
          assert JoinDots(rest) == rest[0] + "." + JoinDots(rest[1..]);
          assert JoinDots(r) == [s[0]] + rest[0] + "." + JoinDots(rest[1..]);
        }
      }
    }
  }

  /** Joining dot-free pieces and splitting again gives the pieces back. */
  lemma {:induction false} SplitJoin(parts: seq<string>)
    requires |parts| >= 1
    requires forall i :: 0 <= i < |parts| ==> '.' !in parts[i]
    ensures SplitDots(JoinDots(parts)) == parts
    decreases |JoinDots(parts)|
  {
    var p := parts[0];
    if |parts| == 1 {
      NoDotSplit(p);
    } else {
      var tail := JoinDots(parts[1..]);
      SplitJoin(parts[1..]);
      SplitPrefix(p, tail);
    }
  }

  lemma {:induction false} NoDotSplit(p: string)
    requires '.' !in p
    ensures SplitDots(p) == [p]
    decreases |p|
  {
    if p != [] {
      NoDotSplit(p[1..]);
      assert [p[0]] + p[1..] == p;
    }
  }

  lemma {:induction false} SplitPrefix(p: string, tail: string)
    requires '.' !in p
    ensures SplitDots(p + "." + tail) == [p] + SplitDots(tail)
    decreases |p|
  {
    if p == [] {
      assert p + "." + tail == ['.'] + tail;
      assert (['.'] + tail)[1..] == tail;
    } else {
      var s := p + "." + tail;
      assert s[1..] == p[1..] + "." + tail;
      SplitPrefix(p[1..], tail);
      assert [p[0]] + p[1..] == p;
    }
  }
}
