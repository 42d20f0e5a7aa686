/** The JavaScript string built-ins the locale tokenizer relies on, with
    the semantics of the ECMAScript definitions restricted to the way the
    tokenizer calls them: `s.split(c)` with a one-character separator, and
    `s.indexOf(t)` and `s.length`, which count UTF-16 code units. A Dafny
    `string` holds Unicode characters; `Utf16` gives the code units
    JavaScript sees for it. */
module JsString {

  /** `t` occurs in `s` starting at offset `i`. */
  ghost predicate OccursAt<T>(s: seq<T>, t: seq<T>, i: int)
  {
    0 <= i && i + |t| <= |s| && s[i..i + |t|] == t
  }

  /** `t` is a (contiguous) substring of `s`. */
  ghost predicate IsSubstring<T>(t: seq<T>, s: seq<T>)
  {
    exists i :: OccursAt(s, t, i)
  }

  /** `s.split(c)`: the maximal runs between occurrences of `c`, in order.
      There is always one more piece than separators, so the empty string
      gives `[""]` and adjacent, leading or trailing separators give empty
      pieces. */
  function Split(s: string, c: char): (pieces: seq<string>)
    ensures |pieces| >= 1
    ensures forall p :: p in pieces ==> c !in p
  {
    if s == [] then [[]]
    else
      var rest := Split(s[1..], c);
      if s[0] == c then [[]] + rest
      else [[s[0]] + rest[0]] + rest[1..]
  }

  /** `pieces.join(c)`: the inverse of `Split`. */
  function Join(pieces: seq<string>, c: char): (joined: string)
    requires |pieces| >= 1
  {
    if |pieces| == 1 then pieces[0]
    else pieces[0] + [c] + Join(pieces[1..], c)
  }

  /** Splitting loses nothing: joining the pieces with the separator gives
      back the original string. */
  lemma {:induction false} JoinSplit(s: string, c: char)
    ensures Join(Split(s, c), c) == s
  {
    if s != [] {
      var rest := Split(s[1..], c);
      JoinSplit(s[1..], c);
      if s[0] == c {
        assert ([[]] + rest)[1..] == rest;
      } else if |rest| > 1 {
        assert ([[s[0]] + rest[0]] + rest[1..])[1..] == rest[1..];
      }
    }
  }

  /** Every piece of a joined sequence occurs in the joined string. */
  lemma {:induction false} PieceOccursInJoin(pieces: seq<string>, c: char, k: nat)
    requires k < |pieces|
    ensures IsSubstring(pieces[k], Join(pieces, c))
  {
    var joined := Join(pieces, c);
    if k == 0 {
      assert joined[0..|pieces[0]|] == pieces[0];
      assert OccursAt(joined, pieces[0], 0);
    } else {
      PieceOccursInJoin(pieces[1..], c, k - 1);
      var tail := Join(pieces[1..], c);
      var i :| OccursAt(tail, pieces[k], i);
      var offset := |pieces[0]| + 1;
      assert joined == pieces[0] + [c] + tail;
      assert joined[offset + i..offset + i + |pieces[k]|] == tail[i..i + |pieces[k]|];
      assert OccursAt(joined, pieces[k], offset + i);
    }
  }

  /** A substring of a substring of `s` is a substring of `s`. */
  lemma SubstringTransitive<T>(a: seq<T>, b: seq<T>, s: seq<T>)
    requires IsSubstring(a, b) && IsSubstring(b, s)
    ensures IsSubstring(a, s)
  {
    var i :| OccursAt(b, a, i);
    var j :| OccursAt(s, b, j);
    assert b == s[j..j + |b|];
    assert forall k :: 0 <= k < |a| ==> a[k] == b[i + k] == s[j + i + k];
    assert s[j + i..j + i + |a|] == a;
    assert OccursAt(s, a, j + i);
  }

  /** Every piece of `s.split(c)` is a substring of `s`. */
  lemma SplitPiecesAreSubstrings(s: string, c: char)
    ensures forall p :: p in Split(s, c) ==> IsSubstring(p, s)
  {
    var pieces := Split(s, c);
    forall p | p in pieces
      ensures IsSubstring(p, s)
    {
      var k :| 0 <= k < |pieces| && pieces[k] == p;
      PieceOccursInJoin(pieces, c, k);
      JoinSplit(s, c);
    }
  }

  /** `s.indexOf(t, from)` on a sequence of code units: the first offset at
      or after `from` where `t` occurs in `s`, or -1 when there is none. */
  function IndexFrom<T(==)>(s: seq<T>, t: seq<T>, from: nat): (r: int)
    decreases |s| - from
    ensures r == -1 || (from <= r && OccursAt(s, t, r))
    ensures r == -1 ==> forall i :: from <= i ==> !OccursAt(s, t, i)
    ensures r >= 0 ==> forall i :: from <= i < r ==> !OccursAt(s, t, i)
  {
    if from + |t| > |s| then -1
    else if s[from..from + |t|] == t then from
    else IndexFrom(s, t, from + 1)
  }

  /** `s.indexOf(t)`: the first occurrence of `t` in `s`, or -1 when `t`
      does not occur at all. */
  function IndexOf<T(==)>(s: seq<T>, t: seq<T>): (r: int)
    ensures r >= -1
    ensures r == -1 <==> !IsSubstring(t, s)
    ensures r >= 0 ==> OccursAt(s, t, r) && forall i :: 0 <= i < r ==> !OccursAt(s, t, i)
  {
    IndexFrom(s, t, 0)
  }

  /** A UTF-16 code unit. */
  type CodeUnit = u: int | 0 <= u < 0x1_0000

  /** The code units JavaScript stores for one character: the character
      itself inside the Basic Multilingual Plane, otherwise a high surrogate
      followed by a low surrogate. */
  function CodeUnits(c: char): (units: seq<CodeUnit>)
    ensures c as int < 0x1_0000 ==> units == [c as int]
    ensures c as int >= 0x1_0000 ==>
      |units| == 2 && 0xD800 <= units[0] < 0xDC00 <= units[1] < 0xE000 &&
      (units[0] as int - 0xD800) * 0x400 + (units[1] as int - 0xDC00) + 0x1_0000 == c as int
  {
    if c as int < 0x1_0000 then [c as int]
    else
      var v := c as int - 0x1_0000;
      [0xD800 + v / 0x400, 0xDC00 + v % 0x400]
  }

  /** The string as JavaScript holds it: its UTF-16 code units, in order. */
  function Utf16(s: string): (units: seq<CodeUnit>)
    ensures |units| >= |s|
  {
    if s == [] then [] else CodeUnits(s[0]) + Utf16(s[1..])
  }

  lemma {:induction false} Utf16Append(a: string, b: string)
    ensures Utf16(a + b) == Utf16(a) + Utf16(b)
  {
    if a == [] {
      assert a + b == b;
    } else {
      assert (a + b)[0] == a[0] && (a + b)[1..] == a[1..] + b;
      Utf16Append(a[1..], b);
    }
  }

  /** Inside the Basic Multilingual Plane, code units and characters
      coincide, so JavaScript's offsets and lengths are character counts. */
  lemma {:induction false} BmpUnitsAreCharacters(s: string)
    requires forall i :: 0 <= i < |s| ==> s[i] as int < 0x1_0000
    ensures |Utf16(s)| == |s|
    ensures forall i :: 0 <= i < |s| ==> Utf16(s)[i] == s[i] as int
  {
    if s != [] {
      BmpUnitsAreCharacters(s[1..]);
      assert Utf16(s) == [s[0] as int] + Utf16(s[1..]);
    }
  }

  /** A character outside the plane takes two code units, so it shifts every
      later offset by two: in JavaScript `"\u{1F600}a".indexOf("a")` is 2. */
  lemma AstralCharacterCountsTwice()
    ensures |Utf16("\U{1F600}")| == 2
    ensures IndexOf(Utf16("\U{1F600}a"), Utf16("a")) == 2
  {
  }

  /** An occurrence of `t` in `s` is an occurrence of its code units in the
      code units of `s`, at the code-unit length of the prefix before it. */
  lemma OccurrenceInUnits(s: string, t: string, i: int)
    requires OccursAt(s, t, i)
    ensures OccursAt(Utf16(s), Utf16(t), |Utf16(s[..i])|)
  {
    var rest := s[i + |t|..];
    assert s == s[..i] + t + rest;
    Utf16Append(s[..i] + t, rest);
    Utf16Append(s[..i], t);
    var prefix := Utf16(s[..i]);
    var units := Utf16(t);
    assert Utf16(s) == prefix + units + Utf16(rest);
    assert Utf16(s)[|prefix|..|prefix| + |units|] == units;
  }

  /** A substring of `s` is a substring of it in code units too. */
  lemma SubstringInUnits(t: string, s: string)
    requires IsSubstring(t, s)
    ensures IsSubstring(Utf16(t), Utf16(s))
  {
    var i :| OccursAt(s, t, i);
    OccurrenceInUnits(s, t, i);
  }
}
