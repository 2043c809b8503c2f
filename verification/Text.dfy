/** The Go text functions the benchmark code relies on. */
module Text {

  /** unicode.IsSpace. */
  predicate IsSpace(c: char) {
    var n := c as int;
    || 9 <= n <= 13 || n == 0x20 || n == 0x85 || n == 0xa0 || n == 0x1680
    || 0x2000 <= n <= 0x200a || n == 0x2028 || n == 0x2029 || n == 0x202f || n == 0x205f || n == 0x3000
  }

  function TrimLeft(s: string): string {
    if s != "" && IsSpace(s[0]) then TrimLeft(s[1..]) else s
  }

  function TrimRight(s: string): string {
    if s != "" && IsSpace(s[|s| - 1]) then TrimRight(s[..|s| - 1]) else s
  }

  /** strings.TrimSpace. */
  function Trim(s: string): string {
    TrimRight(TrimLeft(s))
  }

  predicate Blank(s: string) {
    Trim(s) == ""
  }

  /** `len` of a Go string: its UTF-8 bytes. */
  function ByteLen(s: string): nat {
    if s == "" then 0
    else
      var n := s[|s| - 1] as int;
      ByteLen(s[..|s| - 1]) + (if n < 0x80 then 1 else if n < 0x800 then 2 else if n < 0x10000 then 3 else 4)
  }

  function StripSlashes(path: string): string {
    if path != "" && path[|path| - 1] == '/' then StripSlashes(path[..|path| - 1]) else path
  }

  /** The part after the last slash. */
  function AfterSlash(path: string): string {
    if path == "" || path[|path| - 1] == '/' then "" else AfterSlash(path[..|path| - 1]) + [path[|path| - 1]]
  }

  /** filepath.Base with '/' as the separator. */
  function Base(path: string): string {
    if path == "" then "."
    else
      var name := AfterSlash(StripSlashes(path));
      if name == "" then "/" else name
  }

  lemma {:induction false} TrimLeftStarts(s: string)
    ensures TrimLeft(s) == "" || !IsSpace(TrimLeft(s)[0])
  {
    if s != "" && IsSpace(s[0]) { TrimLeftStarts(s[1..]); }
  }

  lemma {:induction false} TrimRightKeepsStart(s: string)
    requires s != "" && !IsSpace(s[0])
    ensures TrimRight(s) != "" && TrimRight(s)[0] == s[0]
    ensures !IsSpace(TrimRight(s)[|TrimRight(s)| - 1])
  {
    if IsSpace(s[|s| - 1]) { TrimRightKeepsStart(s[..|s| - 1]); }
  }

  /** A text that starts and ends with a non-space is its own trim. */
  lemma TrimOfTight(s: string)
    requires s != "" && !IsSpace(s[0]) && !IsSpace(s[|s| - 1])
    ensures Trim(s) == s
  {
  }

  /** Trimming twice is trimming once. */
  lemma TrimIdempotent(s: string)
    ensures Trim(Trim(s)) == Trim(s)
  {
    TrimLeftStarts(s);
    if TrimLeft(s) != "" {
      TrimRightKeepsStart(TrimLeft(s));
      TrimOfTight(Trim(s));
    }
  }

  lemma StartsSolid(s: string)
    requires s != "" && !IsSpace(s[0])
    ensures !Blank(s)
  {
    TrimRightKeepsStart(s);
  }

  lemma {:induction false} AsciiLength(s: string)
    requires forall i :: 0 <= i < |s| ==> s[i] as int < 0x80
    ensures ByteLen(s) == |s|
  {
    if s != "" { AsciiLength(s[..|s| - 1]); }
  }

  // ---------------------------------------------------------------------
  // What these functions return
  // ---------------------------------------------------------------------

  ghost predicate AllSpace(s: string) {
    forall i :: 0 <= i < |s| ==> IsSpace(s[i])
  }

  /** The white space of Unicode, by code point. */
  lemma SpacesByCode(c: char)
    ensures IsSpace(c) <==>
            (0x9 <= c as int <= 0xd) || (0x2000 <= c as int <= 0x200a)
            || c as int in {0x20, 0x85, 0xa0, 0x1680, 0x2028, 0x2029, 0x202f, 0x205f, 0x3000}
  {
  }

  lemma {:induction false} TrimLeftSplits(s: string) returns (a: string)
    ensures AllSpace(a) && s == a + TrimLeft(s)
  {
    a := "";
    if s != "" && IsSpace(s[0]) {
      a := TrimLeftSplits(s[1..]);
      a := [s[0]] + a;
    }
  }

  lemma {:induction false} TrimRightSplits(s: string) returns (b: string)
    ensures AllSpace(b) && s == TrimRight(s) + b
    ensures TrimRight(s) != "" ==> !IsSpace(TrimRight(s)[|TrimRight(s)| - 1])
  {
    b := "";
    if s != "" && IsSpace(s[|s| - 1]) {
      b := TrimRightSplits(s[..|s| - 1]);
      b := b + [s[|s| - 1]];
    }
  }

  /** Trimming takes off white space at both ends, all of it and nothing else. */
  lemma TrimSplits(s: string) returns (a: string, b: string)
    ensures AllSpace(a) && AllSpace(b) && s == a + Trim(s) + b
    ensures Trim(s) != "" ==> !IsSpace(Trim(s)[0]) && !IsSpace(Trim(s)[|Trim(s)| - 1])
  {
    a := TrimLeftSplits(s);
    TrimLeftStarts(s);
    b := TrimRightSplits(TrimLeft(s));
    assert Trim(s) != "" ==> Trim(s)[0] == TrimLeft(s)[0];
  }

  /** A character takes one to four bytes, by code point. */
  lemma ByteLenAppend(s: string, c: char)
    ensures ByteLen("") == 0
    ensures ByteLen(s + [c]) == ByteLen(s) +
            (if c as int <= 0x7f then 1 else if c as int <= 0x7ff then 2 else if c as int <= 0xffff then 3 else 4)
  {
    assert (s + [c])[..|s|] == s;
  }

  lemma {:induction false} AfterSlashName(dir: string, name: string)
    requires name != "" && '/' !in name && (dir == "" || dir[|dir| - 1] == '/')
    ensures AfterSlash(dir + name) == name
  {
    var path := dir + name;
    assert path[..|path| - 1] == dir + name[..|name| - 1];
    assert name[|name| - 1] in name;
    if |name| > 1 {
      AfterSlashName(dir, name[..|name| - 1]);
    } else {
      assert dir + name[..0] == dir;
    }
  }

  /** The base of a path is its last element, with any number of slashes after it. */
  lemma {:induction false} BaseIsLastElement(dir: string, name: string, slashes: string)
    requires name != "" && '/' !in name && (dir == "" || dir[|dir| - 1] == '/')
    requires forall i :: 0 <= i < |slashes| ==> slashes[i] == '/'
    ensures StripSlashes(dir + name + slashes) == dir + name && Base(dir + name + slashes) == name
    ensures Base("") == "."
    decreases |slashes|
  {
    AfterSlashName(dir, name);
    var path := dir + name + slashes;
    if slashes == "" {
      assert path == dir + name && name[|name| - 1] in name;
    } else {
      assert path[..|path| - 1] == dir + name + slashes[..|slashes| - 1];
      BaseIsLastElement(dir, name, slashes[..|slashes| - 1]);
    }
  }

  /** The base of nothing but slashes is a slash. */
  lemma {:induction false} BaseOfSlashes(slashes: string)
    requires slashes != "" && forall i :: 0 <= i < |slashes| ==> slashes[i] == '/'
    ensures StripSlashes(slashes) == "" && Base(slashes) == "/"
  {
    if |slashes| > 1 { BaseOfSlashes(slashes[..|slashes| - 1]); }
  }
}
