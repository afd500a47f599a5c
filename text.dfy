/** The string primitives the core relies on, with JavaScript's meaning:
    the regular-expression classes `\s` and `\w`, `toLowerCase` on ASCII letters,
    `trim`, `split(/\s+/)` and the decimal rendering of a whole number. */
module Text {

  /** The characters matched by `\s` (and removed by `trim`). */
  predicate IsSpace(c: char)
  {
    var n := c as int;
    n == 0x20 || 0x09 <= n <= 0x0D || n == 0xA0 || n == 0x1680 || 0x2000 <= n <= 0x200A ||
    n == 0x2028 || n == 0x2029 || n == 0x202F || n == 0x205F || n == 0x3000 || n == 0xFEFF
  }

  /** The characters matched by `\w`: ASCII letters, digits and the underscore. */
  predicate IsWordChar(c: char)
  {
    ('a' <= c <= 'z') || ('A' <= c <= 'Z') || ('0' <= c <= '9') || c == '_'
  }

  predicate IsUpper(c: char)
  {
    'A' <= c <= 'Z'
  }

  function LowerChar(c: char): (d: char)
    ensures !IsUpper(d)
    ensures IsWordChar(d) == IsWordChar(c) && IsSpace(d) == IsSpace(c)
    ensures !IsUpper(c) ==> d == c
  {
    if IsUpper(c) then (c as int + 32) as char else c
  }

  /** `toLowerCase`, on ASCII letters. */
  function Lower(s: string): (r: string)
    ensures |r| == |s|
    ensures forall i :: 0 <= i < |s| ==> r[i] == LowerChar(s[i])
  {
    seq(|s|, i requires 0 <= i < |s| => LowerChar(s[i]))
  }

  /** No upper-case letter survives lower-casing. */
  lemma LowerHasNoUpper(s: string)
    ensures forall c :: c in Lower(s) ==> !IsUpper(c)
  {
  }

  lemma LowerAppend(a: string, b: string)
    ensures Lower(a + b) == Lower(a) + Lower(b)
  {
  }

  lemma LowerIdempotent(s: string)
    ensures Lower(Lower(s)) == Lower(s)
  {
  }

  /** `trimStart`: drops the leading whitespace. */
  function TrimStart(s: string): (r: string)
    ensures r == [] || !IsSpace(r[0])
    ensures |r| <= |s| && r == s[|s| - |r|..]
    ensures forall i :: 0 <= i < |s| - |r| ==> IsSpace(s[i])
  {
    if s != [] && IsSpace(s[0]) then TrimStart(s[1..]) else s
  }

  /** `trimEnd`: drops the trailing whitespace. */
  function TrimEnd(s: string): (r: string)
    ensures r == [] || !IsSpace(r[|r| - 1])
    ensures r <= s
    ensures forall i :: |r| <= i < |s| ==> IsSpace(s[i])
  {
    if s != [] && IsSpace(s[|s| - 1]) then TrimEnd(s[..|s| - 1]) else s
  }

  /** `trim`: drops whitespace at both ends. What remains is a slice of `s` with only
      whitespace before and after it. */
  function Trim(s: string): (r: string)
    ensures r == [] || (!IsSpace(r[0]) && !IsSpace(r[|r| - 1]))
    ensures exists i :: TrimmedAt(s, r, i)
  {
    TrimIsSlice(s);
    TrimEnd(TrimStart(s))
  }

  /** `r` is `s[i..i + |r|]`, and every character of `s` outside that slice is whitespace. */
  predicate TrimmedAt(s: string, r: string, i: int)
  {
    && 0 <= i && i + |r| <= |s|
    && r == s[i..i + |r|]
    && (forall k :: 0 <= k < i ==> IsSpace(s[k]))
    && (forall k :: i + |r| <= k < |s| ==> IsSpace(s[k]))
  }

  lemma TrimIsSlice(s: string)
    ensures TrimmedAt(s, TrimEnd(TrimStart(s)), |s| - |TrimStart(s)|)
  {
    var t := TrimStart(s);
    var r := TrimEnd(t);
    SliceOfSlice(s, t, r);
  }

  lemma SliceOfSlice(s: string, t: string, r: string)
    requires |t| <= |s| && t == s[|s| - |t|..]
    requires forall k :: 0 <= k < |s| - |t| ==> IsSpace(s[k])
    requires r <= t
    requires forall k :: |r| <= k < |t| ==> IsSpace(t[k])
    ensures TrimmedAt(s, r, |s| - |t|)
  {
    var i := |s| - |t|;
    assert r == s[i..i + |r|] by {
      assert r == t[..|r|];
    }
    forall k | i + |r| <= k < |s| ensures IsSpace(s[k]) {
      assert s[k] == t[k - i];
    }
  }

  /** The first whitespace position at or after `from`, or `|s|`. */
  function IndexOfSpace(s: string, from: nat): (i: nat)
    requires from <= |s|
    ensures from <= i <= |s|
    ensures i < |s| ==> IsSpace(s[i])
    ensures forall j :: from <= j < i ==> !IsSpace(s[j])
    decreases |s| - from
  {
    if from == |s| || IsSpace(s[from]) then from else IndexOfSpace(s, from + 1)
  }

  /** The end of the whitespace run that starts at `from`. */
  function SkipSpaces(s: string, from: nat): (j: nat)
    requires from <= |s|
    ensures from <= j <= |s|
    ensures j < |s| ==> !IsSpace(s[j])
    ensures forall k :: from <= k < j ==> IsSpace(s[k])
    decreases |s| - from
  {
    if from == |s| || !IsSpace(s[from]) then from else SkipSpaces(s, from + 1)
  }

  /** `s` with every whitespace character removed. */
  function RemoveSpaces(s: string): string
  {
    if s == [] then [] else (if IsSpace(s[0]) then [] else [s[0]]) + RemoveSpaces(s[1..])
  }

  lemma {:induction false} RemoveSpacesAppend(a: string, b: string)
    ensures RemoveSpaces(a + b) == RemoveSpaces(a) + RemoveSpaces(b)
  {
    if a == [] {
      assert a + b == b;
    } else {
      assert (a + b)[0] == a[0];
      assert (a + b)[1..] == a[1..] + b;
      RemoveSpacesAppend(a[1..], b);
    }
  }

  lemma {:induction false} RemoveSpacesOfWord(s: string)
    requires forall k :: 0 <= k < |s| ==> !IsSpace(s[k])
    ensures RemoveSpaces(s) == s
  {
    if s != [] {
      RemoveSpacesOfWord(s[1..]);
    }
  }

  lemma {:induction false} RemoveSpacesOfSpaces(s: string)
    requires forall k :: 0 <= k < |s| ==> IsSpace(s[k])
    ensures RemoveSpaces(s) == []
  {
    if s != [] {
      RemoveSpacesOfSpaces(s[1..]);
    }
  }

  /** The pieces glued back together. */
  function Concat(words: seq<string>): string
  {
    if words == [] then [] else words[0] + Concat(words[1..])
  }

  /** One step of the split: a word, a whitespace run, and the rest. */
  lemma SplitStep(a: string, b: string, c: string)
    requires forall k :: 0 <= k < |a| ==> !IsSpace(a[k])
    requires forall k :: 0 <= k < |b| ==> IsSpace(b[k])
    ensures RemoveSpaces(a + b + c) == a + RemoveSpaces(c)
  {
    RemoveSpacesOfWord(a);
    RemoveSpacesOfSpaces(b);
    RemoveSpacesAppend(a + b, c);
    RemoveSpacesAppend(a, b);
  }

  /** `words[0] + seps[0] + words[1] + seps[1] + … + words[|words| - 1]`. */
  function Join(words: seq<string>, seps: seq<string>): string
    requires |words| == |seps| + 1
  {
    if seps == [] then words[0] else words[0] + seps[0] + Join(words[1..], seps[1..])
  }

  /** `s` is `words` with the non-empty whitespace runs `seps` between them. */
  predicate IsSplitBy(s: string, words: seq<string>, seps: seq<string>)
  {
    && |words| == |seps| + 1
    && (forall k :: 0 <= k < |seps| ==> seps[k] != [])
    && (forall k, j :: 0 <= k < |seps| && 0 <= j < |seps[k]| ==> IsSpace(seps[k][j]))
    && Join(words, seps) == s
  }

  /** The whitespace runs of `s`, in order. */
  function Separators(s: string): seq<string>
    decreases |s|
  {
    var i := IndexOfSpace(s, 0);
    if i == |s| then [] else var j := SkipSpaces(s, i); [s[i..j]] + Separators(s[j..])
  }

  /** Prepending a piece and a whitespace run keeps a split a split. */
  lemma SplitByStep(a: string, b: string, c: string, words: seq<string>, seps: seq<string>)
    requires b != [] && forall k :: 0 <= k < |b| ==> IsSpace(b[k])
    requires IsSplitBy(c, words, seps)
    ensures IsSplitBy(a + b + c, [a] + words, [b] + seps)
  {
    assert ([a] + words)[1..] == words;
    assert ([b] + seps)[1..] == seps;
  }

  /** `split(/\s+/)`: the pieces between maximal whitespace runs. A leading or trailing run
      yields an empty first or last piece, and the empty string splits into one empty piece.
      Gluing the pieces back together gives `s` without its whitespace, and every piece
      strictly between the first and the last is non-empty; `SplitOnWhitespaceJoins` shows
      that the pieces break exactly at the whitespace runs. */
  function SplitOnWhitespace(s: string): (words: seq<string>)
    ensures |words| >= 1
    ensures forall i, j :: 0 <= i < |words| && 0 <= j < |words[i]| ==> !IsSpace(words[i][j])
    ensures Concat(words) == RemoveSpaces(s)
    ensures forall k :: 0 < k < |words| - 1 ==> words[k] != []
    ensures s != [] && !IsSpace(s[0]) ==> words[0] != []
    decreases |s|
  {
    var i := IndexOfSpace(s, 0);
    if i == |s| then
      RemoveSpacesOfWord(s);
      assert Concat([s]) == s + Concat([]);
      [s]
    else
      var j := SkipSpaces(s, i);
      var rest := SplitOnWhitespace(s[j..]);
      SplitStep(s[..i], s[i..j], s[j..]);
      assert s == s[..i] + s[i..j] + s[j..];
      var words := [s[..i]] + rest;
      assert words[1..] == rest;
      assert j == |s| ==> rest == [[]];
      words
  }

  /** Putting the whitespace runs of `s` back between the pieces of its split gives `s`. */
  lemma {:induction false} SplitOnWhitespaceJoins(s: string)
    ensures IsSplitBy(s, SplitOnWhitespace(s), Separators(s))
    decreases |s|
  {
    var i := IndexOfSpace(s, 0);
    if i < |s| {
      var j := SkipSpaces(s, i);
      SplitOnWhitespaceJoins(s[j..]);
      SplitByStep(s[..i], s[i..j], s[j..], SplitOnWhitespace(s[j..]), Separators(s[j..]));
      assert s == s[..i] + s[i..j] + s[j..];
    }
  }

  function DigitChar(d: nat): (c: char)
    requires d < 10
    ensures '0' <= c <= '9'
  {
    ('0' as int + d) as char
  }

  /** The number a string of decimal digits denotes. */
  function DecimalValue(s: string): int
  {
    if s == [] then 0 else DecimalValue(s[..|s| - 1]) * 10 + (s[|s| - 1] as int - '0' as int)
  }

  /** `digits` is the canonical decimal rendering of `n`: at least one digit, only the
      characters '0' to '9', no leading zero unless it is the only digit, and denoting `n`. */
  predicate IsDecimal(digits: string, n: nat)
  {
    && |digits| >= 1
    && (forall i :: 0 <= i < |digits| ==> '0' <= digits[i] <= '9')
    && (|digits| > 1 ==> digits[0] != '0')
    && DecimalValue(digits) == n
  }

  /** The decimal rendering of a whole number, as a template literal produces it: digits
      denoting `n`, with no leading zero. */
  function NatToString(n: nat): (s: string)
    ensures IsDecimal(s, n)
    ensures n > 0 ==> s[0] != '0'
  {
    if n < 10 then
      assert [DigitChar(n)][..0] == [];
      [DigitChar(n)]
    else
      var p := NatToString(n / 10);
      assert (p + [DigitChar(n % 10)])[..|p|] == p;
      p + [DigitChar(n % 10)]
  }
}
