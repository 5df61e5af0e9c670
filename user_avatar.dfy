/**
 * The avatar fallback: a user's initials and a background colour chosen by a
 * 32-bit string hash of the name.
 */
module UserAvatar {
  import opened Text

  /* --------------------------------------------------------------- initials */

  /** `words.map(n => n[0]).join('')`: an empty word's `undefined` joins as nothing. */
  function FirstChars(words: seq<string>): (r: string)
    ensures |r| == |NonEmpty(words)| <= |words|
    ensures forall i :: 0 <= i < |r| ==> r[i] == NonEmpty(words)[i][0]
  {
    if words == [] then ""
    else (if words[0] == "" then "" else [words[0][0]]) + FirstChars(words[1..])
  }

  function Min(a: int, b: int): int { if a <= b then a else b }

  /** `getInitials`: the first characters of the space-separated words, upper-cased, at most two. */
  function Initials(name: string): (r: string)
    ensures |r| <= 2
    ensures forall i :: 0 <= i < |r| ==> !IsLowerAscii(r[i])
  {
    var up := Upper(FirstChars(Split(name, " ")));
    up[..Min(2, |up|)]
  }

  /** Splitting at the first space: the word before it, then the pieces of the rest. */
  lemma {:induction false} SplitAfterWord(w: string, rest: string)
    requires ' ' !in w
    ensures Split(w + " " + rest, " ") == [w] + Split(rest, " ")
    decreases |w|
  {
    var s := w + " " + rest;
    if w == [] {
      assert s[..1] == " " && s[1..] == rest;
    } else {
      assert s[..1] != " " by { assert s[0] == w[0]; }
      assert s[1..] == w[1..] + " " + rest;
      SplitAfterWord(w[1..], rest);
      assert [s[0]] + w[1..] == w;
    }
  }

  lemma {:induction false} SplitWord(w: string)
    requires ' ' !in w
    ensures Split(w, " ") == [w]
    decreases |w|
  {
    if w != [] {
      assert w[..1] != " " by { assert w[0] != ' '; }
      SplitWord(w[1..]);
      assert [w[0]] + w[1..] == w;
    }
  }

  /** Words without spaces, joined by single spaces, split back into the same words. */
  lemma {:induction false} SplitJoinedWords(words: seq<string>)
    requires |words| >= 1
    requires forall w :: w in words ==> ' ' !in w
    ensures Split(Join(words, " "), " ") == words
    decreases |words|
  {
    if |words| == 1 {
      SplitWord(words[0]);
    } else {
      assert words[0] in words;
      SplitJoinedWords(words[1..]);
      SplitAfterWord(words[0], Join(words[1..], " "));
      assert [words[0]] + words[1..] == words;
    }
  }

  /** A first and last name give the upper-cased first letter of each. */
  lemma InitialsOfTwoWords(first: string, last: string)
    requires first != "" && last != "" && ' ' !in first && ' ' !in last
    ensures Initials(first + " " + last) == [UpperChar(first[0]), UpperChar(last[0])]
  {
    var words := [first, last];
    assert Join(words[1..], " ") == last;
    assert Join(words, " ") == first + " " + last;
    SplitJoinedWords(words);
    assert FirstChars(words[1..][1..]) == "";
    assert FirstChars(words) == [first[0], last[0]];
  }

  /** Empty words (from leading or doubled spaces) contribute nothing: `" ann"` gives `"A"`. */
  lemma InitialsSkipEmptyWords()
    ensures Initials(" ann") == "A"
  {
    assert " ann" == "" + " " + "ann";
    SplitAfterWord("", "ann");
    SplitWord("ann");
    assert Split(" ann", " ") == ["", "ann"];
    assert FirstChars(["", "ann"]) == "a";
  }

  /* ----------------------------------------------------------------- colour */

  /** The 17 background classes. */
  const Colors: seq<string> := [
    "bg-red-500", "bg-orange-500", "bg-amber-500", "bg-yellow-500", "bg-lime-500",
    "bg-green-500", "bg-emerald-500", "bg-teal-500", "bg-cyan-500", "bg-sky-500",
    "bg-blue-500", "bg-indigo-500", "bg-violet-500", "bg-purple-500", "bg-fuchsia-500",
    "bg-pink-500", "bg-rose-500"
  ]

  const TwoTo32: int := 0x1_0000_0000

  /** ECMAScript ToInt32: the integer taken modulo 2^32 into [-2^31, 2^31). */
  function Int32(x: int): (r: int)
    ensures -0x8000_0000 <= r < 0x8000_0000
    ensures (r - x) % TwoTo32 == 0
  {
    (x + 0x8000_0000) % TwoTo32 - 0x8000_0000
  }

  /** `hash << 5`: the hash as a 32-bit integer, shifted, wrapped to 32 bits. */
  function ShiftLeft5(hash: int): (r: int)
    ensures -0x8000_0000 <= r < 0x8000_0000
    ensures (r - hash * 32) % TwoTo32 == 0
  {
    var a := Int32(hash);
    var r := Int32(a * 32);
    ShiftWraps(hash, a, r);
    r
  }

  /** Wrapping before the shift and after it is one wrap of the exact product. */
  lemma ShiftWraps(hash: int, a: int, r: int)
    requires (a - hash) % TwoTo32 == 0 && (r - a * 32) % TwoTo32 == 0
    ensures (r - hash * 32) % TwoTo32 == 0
  {
    var k := (a - hash) / TwoTo32;
    var m := (r - a * 32) / TwoTo32;
    assert r - hash * 32 == (m + k * 32) * TwoTo32;
  }

  /**
   * The hash after the characters of `s`: each step is
   * `charCode + ((hash << 5) - hash)`, where only the shift wraps; the sum
   * itself is a double, exact as long as it stays below 2^53.
   */
  function Hash(s: string): int
    decreases |s|
  {
    if s == [] then 0
    else
      var h := Hash(s[..|s| - 1]);
      s[|s| - 1] as int + (ShiftLeft5(h) - h)
  }

  function Abs(x: int): nat { if x < 0 then -x else x }

  /** Each character moves the hash by less than 2^31 plus a character code, so doubles hold it exactly. */
  lemma {:induction false} HashBound(s: string)
    ensures Abs(Hash(s)) <= |s| * (0x8000_0000 + 0x11_0000)
    decreases |s|
  {
    if s != [] {
      HashBound(s[..|s| - 1]);
    }
  }

  /** `getColorFromName`: the hash loop, then `Math.abs(hash) % colors.length`. */
  method ColorFromName(name: string) returns (color: string)
    ensures color == Colors[Abs(Hash(name)) % |Colors|]
    ensures color in Colors
  {
    var hash := 0;
    for i := 0 to |name|
      invariant hash == Hash(name[..i])
    {
      assert name[..i + 1][..i] == name[..i];
      hash := name[i] as int + (ShiftLeft5(hash) - hash);
    }
    assert name[..|name|] == name;
    color := Colors[Abs(hash) % |Colors|];
  }

  /** The empty name keeps the hash at 0 and gets the first colour. */
  lemma EmptyNameIsRed()
    ensures Colors[Abs(Hash("")) % |Colors|] == "bg-red-500"
  {
  }

  /** One step of the hash: `"a"` hashes to its code 97, which picks colour 12. */
  lemma SingleLetterColor()
    ensures Hash("a") == 97 && Colors[Abs(Hash("a")) % |Colors|] == "bg-violet-500"
  {
    assert "a"[..0] == "";
  }
}
