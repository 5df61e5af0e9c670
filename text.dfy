/**
 * The JavaScript string operations the kanban code relies on, stated over
 * `string` (a sequence of UTF-16-free Unicode characters).  Case mapping is
 * ASCII only; `trim` removes the characters ECMAScript calls white space and
 * line terminators; `split` follows the left-to-right, non-overlapping rule of
 * `String.prototype.split` with a non-empty separator.
 */
module Text {

  predicate IsUpperAscii(c: char) { 'A' <= c <= 'Z' }
  predicate IsLowerAscii(c: char) { 'a' <= c <= 'z' }
  predicate IsDigit(c: char) { '0' <= c <= '9' }

  /** The characters kept by the pattern `[a-z0-9]`. */
  predicate IsLowerAlnum(c: char) { IsLowerAscii(c) || IsDigit(c) }

  /** The characters allowed by the pattern `^[a-z0-9-]+$`. */
  predicate IsSlugChar(c: char) { IsLowerAlnum(c) || c == '-' }

  function LowerChar(c: char): (r: char)
    ensures !IsUpperAscii(r)
    ensures IsUpperAscii(c) || r == c
  {
    if IsUpperAscii(c) then (c as int + 32) as char else c
  }

  function UpperChar(c: char): (r: char)
    ensures !IsLowerAscii(r)
    ensures IsLowerAscii(c) || r == c
  {
    if IsLowerAscii(c) then (c as int - 32) as char else c
  }

  /** `s.toLowerCase()` on ASCII letters. */
  function Lower(s: string): (r: string)
    ensures |r| == |s|
    ensures forall i :: 0 <= i < |s| ==> r[i] == LowerChar(s[i])
  {
    seq(|s|, i requires 0 <= i < |s| => LowerChar(s[i]))
  }

  /** `s.toUpperCase()` on ASCII letters. */
  function Upper(s: string): (r: string)
    ensures |r| == |s|
    ensures forall i :: 0 <= i < |s| ==> r[i] == UpperChar(s[i])
  {
    seq(|s|, i requires 0 <= i < |s| => UpperChar(s[i]))
  }

  /** ECMAScript WhiteSpace and LineTerminator code points, which `trim` removes. */
  predicate IsSpace(c: char) {
    var n := c as int;
    n == 0x09 || n == 0x0A || n == 0x0B || n == 0x0C || n == 0x0D || n == 0x20 ||
    n == 0xA0 || n == 0x1680 || (0x2000 <= n <= 0x200A) || n == 0x2028 ||
    n == 0x2029 || n == 0x202F || n == 0x205F || n == 0x3000 || n == 0xFEFF
  }

  predicate IsBlank(s: string) {
    forall i :: 0 <= i < |s| ==> IsSpace(s[i])
  }

  /** `s.trimStart()`: drops leading white space. */
  function TrimStart(s: string): string
  {
    if |s| > 0 && IsSpace(s[0]) then TrimStart(s[1..]) else s
  }

  /** `s.trimEnd()`: drops trailing white space. */
  function TrimEnd(s: string): string
  {
    if |s| > 0 && IsSpace(s[|s| - 1]) then TrimEnd(s[..|s| - 1]) else s
  }

  /** `s.trim()`. */
  function Trim(s: string): string {
    TrimEnd(TrimStart(s))
  }

  /** `trimStart` keeps the longest suffix that does not start with white space. */
  lemma {:induction false} TrimStartSpec(s: string)
    ensures var r := TrimStart(s);
      && |r| <= |s| && r == s[|s| - |r|..]
      && IsBlank(s[..|s| - |r|])
      && (r == [] || !IsSpace(r[0]))
    decreases |s|
  {
    if |s| > 0 && IsSpace(s[0]) {
      TrimStartSpec(s[1..]);
      var r := TrimStart(s[1..]);
      assert s[1..][..|s| - 1 - |r|] == s[1..|s| - |r|];
      assert forall i :: 1 <= i < |s| - |r| ==> s[i] == s[1..][..|s| - 1 - |r|][i - 1];
    }
  }

  /** `trimEnd` keeps the longest prefix that does not end with white space. */
  lemma {:induction false} TrimEndSpec(s: string)
    ensures var r := TrimEnd(s);
      && |r| <= |s| && r == s[..|r|]
      && IsBlank(s[|r|..])
      && (r == [] || !IsSpace(r[|r| - 1]))
    decreases |s|
  {
    if |s| > 0 && IsSpace(s[|s| - 1]) {
      var front := s[..|s| - 1];
      TrimEndSpec(front);
      var r := TrimEnd(front);
      assert TrimEnd(s) == r;
      assert r == s[..|r|] by {
        assert front[..|r|] == s[..|r|];
      }
      forall i | 0 <= i < |s[|r|..]| ensures IsSpace(s[|r|..][i]) {
        if |r| + i < |s| - 1 {
          assert s[|r|..][i] == front[|r|..][i];
        }
      }
    }
  }

  /** A string trims to the empty string exactly when it is all white space. */
  lemma TrimEmptyIffBlank(s: string)
    ensures Trim(s) == [] <==> IsBlank(s)
  {
    var a := TrimStart(s);
    TrimStartSpec(s);
    TrimEndSpec(a);
    assert a != [] ==> a[0] == s[|s| - |a|] && a[0] == a[0..][0];
    assert s[..|s|] == s;
  }

  /** Trimming a trimmed string changes nothing. */
  lemma TrimIdempotent(s: string)
    ensures Trim(Trim(s)) == Trim(s)
  {
    TrimShape(s);
  }

  /** `Trim` leaves no white space at either end and keeps a contiguous middle part. */
  lemma {:induction false} TrimShape(s: string)
    ensures Trim(s) == [] || (!IsSpace(Trim(s)[0]) && !IsSpace(Trim(s)[|Trim(s)| - 1]))
    ensures |Trim(s)| <= |s| - |TrimStart(s)| + |Trim(s)| <= |s|
    ensures s[|s| - |TrimStart(s)|..][..|Trim(s)|] == Trim(s)
  {
    var a := TrimStart(s);
    var r := TrimEnd(a);
    TrimStartSpec(s);
    TrimEndSpec(a);
    assert r != [] ==> r[0] == a[0];
  }

  function Contains(s: string, sub: string): bool
  {
    StartsWith(s, sub) || (|s| > 0 && Contains(s[1..], sub))
  }

  predicate StartsWith(s: string, prefix: string) {
    |prefix| <= |s| && s[..|prefix|] == prefix
  }

  predicate EndsWith(s: string, suffix: string) {
    |suffix| <= |s| && s[|s| - |suffix|..] == suffix
  }

  /** `s.split(sep)` for a non-empty separator: always at least one piece. */
  function Split(s: string, sep: string): (r: seq<string>)
    requires |sep| > 0
    ensures |r| >= 1
    decreases |s|
  {
    if |s| < |sep| then [s]
    else if s[..|sep|] == sep then [""] + Split(s[|sep|..], sep)
    else
      var rest := Split(s[1..], sep);
      [[s[0]] + rest[0]] + rest[1..]
  }

  /** `parts.join(sep)`. */
  function Join(parts: seq<string>, sep: string): string
  {
    if |parts| == 0 then ""
    else if |parts| == 1 then parts[0]
    else parts[0] + sep + Join(parts[1..], sep)
  }

  lemma {:induction false} JoinConsPrefix(x: string, rest: seq<string>, sep: string)
    requires |rest| >= 1
    ensures Join([x + rest[0]] + rest[1..], sep) == x + Join(rest, sep)
  {
    var parts := [x + rest[0]] + rest[1..];
    if |rest| == 1 {
      assert parts == [x + rest[0]];
    } else {
      assert parts[1..] == rest[1..];
    }
  }

  /** Joining the pieces of a split with the same separator gives back the string. */
  lemma {:induction false} SplitJoin(s: string, sep: string)
    requires |sep| > 0
    ensures Join(Split(s, sep), sep) == s
    decreases |s|
  {
    if |s| < |sep| {
      assert Split(s, sep) == [s];
    } else if s[..|sep|] == sep {
      var tail := Split(s[|sep|..], sep);
      SplitJoin(s[|sep|..], sep);
      assert Split(s, sep) == [""] + tail;
      assert ([""] + tail)[1..] == tail;
      assert Join([""] + tail, sep) == "" + sep + Join(tail, sep);
      assert s == sep + s[|sep|..];
    } else {
      var rest := Split(s[1..], sep);
      SplitJoin(s[1..], sep);
      SplitStep(s, sep);
      JoinConsPrefix([s[0]], rest, sep);
      assert s == [s[0]] + s[1..];
    }
  }

  /** No piece of a split contains the separator. */
  lemma {:induction false} SplitPiecesAvoidSeparator(s: string, sep: string)
    requires |sep| > 0
    ensures forall p :: p in Split(s, sep) ==> !Contains(p, sep)
    decreases |s|
  {
    if |s| < |sep| {
      ShortNeverContains(s, sep);
    } else if s[..|sep|] == sep {
      SplitPiecesAvoidSeparator(s[|sep|..], sep);
      ShortNeverContains("", sep);
    } else {
      var rest := Split(s[1..], sep);
      SplitPiecesAvoidSeparator(s[1..], sep);
      var head := [s[0]] + rest[0];
      SplitFirstIsPrefix(s[1..], sep);
      assert head == s[..|head|];
      assert !StartsWith(head, sep);
      assert head[1..] == rest[0];
      assert !Contains(head, sep);
      forall p | p in Split(s, sep) ensures !Contains(p, sep) {
        if p != head { assert p in rest[1..]; }
      }
    }
  }

  lemma {:induction false} ShortNeverContains(s: string, sep: string)
    requires |sep| > 0 && |s| < |sep|
    ensures !Contains(s, sep)
    decreases |s|
  {
    if |s| > 0 { ShortNeverContains(s[1..], sep); }
  }

  lemma {:induction false} SplitFirstIsPrefix(s: string, sep: string)
    requires |sep| > 0
    ensures var p := Split(s, sep)[0]; |p| <= |s| && s[..|p|] == p
    decreases |s|
  {
    if |s| < |sep| {
      assert Split(s, sep)[0] == s;
    } else if s[..|sep|] == sep {
      assert Split(s, sep)[0] == "";
    } else {
      var q := Split(s[1..], sep)[0];
      SplitFirstIsPrefix(s[1..], sep);
      SplitStep(s, sep);
      assert s[..|q| + 1] == [s[0]] + s[1..][..|q|];
    }
  }

  /** The split of a string that does not start with the separator: its first character joins the first piece of the rest. */
  lemma SplitStep(s: string, sep: string)
    requires |sep| > 0 && |s| >= |sep| && s[..|sep|] != sep
    ensures var rest := Split(s[1..], sep); Split(s, sep) == [[s[0]] + rest[0]] + rest[1..]
  {
  }

  /** `parts.filter(Boolean)` on strings: drop the empty pieces. */
  function NonEmpty(parts: seq<string>): (r: seq<string>)
    ensures forall p :: p in r ==> p != [] && p in parts
    ensures forall p :: p in parts && p != [] ==> p in r
    ensures forall i :: 0 <= i < |r| ==> r[i] != []
    ensures |r| <= |parts|
  {
    if parts == [] then []
    else if parts[0] == [] then NonEmpty(parts[1..])
    else [parts[0]] + NonEmpty(parts[1..])
  }

  /** The filter distributes over concatenation, so the kept pieces stay in their order. */
  lemma {:induction false} NonEmptyDistributes(a: seq<string>, b: seq<string>)
    ensures NonEmpty(a + b) == NonEmpty(a) + NonEmpty(b)
    decreases |a|
  {
    if a == [] {
      assert a + b == b;
    } else {
      assert (a + b)[0] == a[0] && (a + b)[1..] == a[1..] + b;
      NonEmptyDistributes(a[1..], b);
      if a[0] != [] {
        assert [a[0]] + (NonEmpty(a[1..]) + NonEmpty(b)) == [a[0]] + NonEmpty(a[1..]) + NonEmpty(b);
      }
    }
  }

  /** Drops a leading run of characters outside `[a-z0-9]`. */
  function SkipRun(s: string): (r: string)
    ensures |r| <= |s| && r == s[|s| - |r|..]
    ensures r == [] || IsLowerAlnum(r[0])
    ensures s != [] && !IsLowerAlnum(s[0]) ==> |r| < |s|
  {
    if s != [] && !IsLowerAlnum(s[0]) then SkipRun(s[1..]) else s
  }

  /**
   * `s.replace(/[^a-z0-9]+/g, '-')`: every maximal run of characters outside
   * `[a-z0-9]` becomes a single dash.
   */
  function DashRuns(s: string): (r: string)
    ensures forall i :: 0 <= i < |r| ==> IsSlugChar(r[i])
    ensures forall i :: 0 <= i < |r| - 1 ==> !(r[i] == '-' && r[i + 1] == '-')
    ensures |r| <= |s|
    ensures s != [] ==> r != []
    ensures r != [] && r[0] != '-' ==> s != [] && r[0] == s[0]
    ensures r != [] && r[0] == '-' ==> s != [] && !IsLowerAlnum(s[0])
    decreases |s|
  {
    if s == [] then []
    else if IsLowerAlnum(s[0]) then [s[0]] + DashRuns(s[1..])
    else
      var rest := SkipRun(s);
      "-" + DashRuns(rest)
  }
}
