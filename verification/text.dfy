/**
 * The string operations the extractor relies on, with Python's meaning:
 * `str.strip()`, `str.split(sep)`, `sep.join(parts)`, `str.upper()`,
 * `str.lower()`, `pat in text` and `text.split(sep)[0]`.
 */
module Text {
  import opened Wrappers

  /** Python's `str.isspace()` for one character. */
  predicate IsSpace(c: char) {
    || c == ' '
    || '\t' <= c <= '\r'
    || '\U{1C}' <= c <= '\U{1F}'
    || c == '\U{85}' || c == '\U{A0}' || c == '\U{1680}'
    || '\U{2000}' <= c <= '\U{200A}'
    || c == '\U{2028}' || c == '\U{2029}' || c == '\U{202F}' || c == '\U{205F}' || c == '\U{3000}'
  }

  predicate AllSpace(s: string) {
    forall k :: 0 <= k < |s| ==> IsSpace(s[k])
  }

  /** The first position at or after `i` that holds no white space, or `|s|`. */
  function SkipSpace(s: string, i: nat): (j: nat)
    requires i <= |s|
    ensures i <= j <= |s|
    ensures forall k :: i <= k < j ==> IsSpace(s[k])
    ensures j == |s| || !IsSpace(s[j])
    decreases |s| - i
  {
    if i < |s| && IsSpace(s[i]) then SkipSpace(s, i + 1) else i
  }

  /** Scanning back from `j` to no further than `lo`: the position just past the last character that is not white space. */
  function SkipSpaceBack(s: string, lo: nat, j: nat): (e: nat)
    requires lo <= j <= |s|
    ensures lo <= e <= j
    ensures forall k :: e <= k < j ==> IsSpace(s[k])
    ensures e == lo || !IsSpace(s[e - 1])
    decreases j
  {
    if j > lo && IsSpace(s[j - 1]) then SkipSpaceBack(s, lo, j - 1) else j
  }

  /** Where `Strip` starts keeping characters: the end of the leading white space. */
  function StripStart(s: string): nat {
    SkipSpace(s, 0)
  }

  /** Where `Strip` stops keeping characters: the start of the trailing white space. */
  function StripEnd(s: string): nat {
    SkipSpaceBack(s, SkipSpace(s, 0), |s|)
  }

  /**
   * `s.strip()`: what is left after removing the white space at both ends;
   * it neither starts nor ends with white space, and it is empty exactly when
   * `s` is all white space.
   */
  function Strip(s: string): (r: string)
    ensures |r| <= |s|
    ensures r == [] || (!IsSpace(r[0]) && !IsSpace(r[|r| - 1]))
    ensures r == [] <==> AllSpace(s)
  {
    var i := SkipSpace(s, 0);
    var j := SkipSpaceBack(s, i, |s|);
    s[i..j]
  }

  /** What `Strip` keeps is a slice of `s` with only white space cut off around it. */
  lemma StripIsSlice(s: string)
    ensures StripStart(s) <= StripEnd(s) <= |s|
    ensures Strip(s) == s[StripStart(s)..StripEnd(s)]
    ensures AllSpace(s[..StripStart(s)]) && AllSpace(s[StripEnd(s)..])
  {
  }

  function UpperChar(c: char): char {
    if 'a' <= c <= 'z' then (c as int - 32) as char else c
  }

  function LowerChar(c: char): char {
    if 'A' <= c <= 'Z' then (c as int + 32) as char else c
  }

  /** `s.upper()`, character by character. */
  function Upper(s: string): (r: string)
    ensures |r| == |s|
    ensures forall k :: 0 <= k < |s| ==> r[k] == UpperChar(s[k])
  {
    seq(|s|, k requires 0 <= k < |s| => UpperChar(s[k]))
  }

  /** `s.lower()`, character by character. */
  function Lower(s: string): (r: string)
    ensures |r| == |s|
    ensures forall k :: 0 <= k < |s| ==> r[k] == LowerChar(s[k])
  {
    seq(|s|, k requires 0 <= k < |s| => LowerChar(s[k]))
  }

  /** Upper-casing a normalised symbol leaves it as it is, so normalising twice is harmless. */
  lemma UpperIdempotent(s: string)
    ensures Upper(Upper(s)) == Upper(s)
  {
  }

  /** Upper-case text has no lower-case ASCII letter left. */
  lemma UpperHasNoLowerCase(s: string)
    ensures forall k :: 0 <= k < |s| ==> !('a' <= Upper(s)[k] <= 'z')
  {
  }

  /** Lower-casing discards any earlier case mapping: a string, its upper-cased and its lower-cased form all lower-case alike. */
  lemma LowerIgnoresCase(s: string)
    ensures Lower(Upper(s)) == Lower(s)
    ensures Lower(Lower(s)) == Lower(s)
  {
  }

  /** `pat` occurs in `text` starting at position `k`. */
  predicate OccursAt(text: string, pat: string, k: int) {
    0 <= k && k + |pat| <= |text| && text[k..k + |pat|] == pat
  }

  /**
   * The first position at or after `from` where `pat` occurs in `text`
   * (`text.find(pat, from)` with "not found" as `None`).
   */
  function FindFrom(text: string, pat: string, from: nat): (r: Option<nat>)
    ensures r.Some? ==> from <= r.value && OccursAt(text, pat, r.value)
    ensures r.Some? ==> forall j :: from <= j < r.value ==> !OccursAt(text, pat, j)
    ensures r.None? ==> forall j :: from <= j ==> !OccursAt(text, pat, j)
    decreases |text| - from
  {
    if from + |pat| > |text| then None
    else if text[from..from + |pat|] == pat then Some(from)
    else FindFrom(text, pat, from + 1)
  }

  /** Python's `pat in text`: some position holds an occurrence of `pat`. */
  predicate Contains(text: string, pat: string) {
    FindFrom(text, pat, 0).Some?
  }

  lemma ContainsMeansOccurs(text: string, pat: string)
    ensures Contains(text, pat) <==> exists k :: OccursAt(text, pat, k)
  {
  }

  /**
   * `s.split(sep)[0]`: the text before the first occurrence of `sep`, or all
   * of `s` when `sep` does not occur.
   */
  function BeforeFirst(s: string, sep: string): (r: string)
    requires sep != []
    ensures |r| <= |s| && r == s[..|r|]
    ensures forall j :: 0 <= j < |r| ==> !OccursAt(s, sep, j)
    ensures r == s || OccursAt(s, sep, |r|)
    ensures r != s <==> exists k :: OccursAt(s, sep, k)
  {
    match FindFrom(s, sep, 0)
    case Some(k) => s[..k]
    case None => s
  }

  /** `sep.join(parts)`. */
  function Join(parts: seq<string>, sep: string): string
    decreases |parts|
  {
    if |parts| == 0 then ""
    else if |parts| == 1 then parts[0]
    else parts[0] + sep + Join(parts[1..], sep)
  }

  /**
   * `s.split(c)` for a one-character separator: the maximal pieces between
   * occurrences of `c`; there is always at least one piece, no piece holds
   * `c`, and joining the pieces with `c` gives back `s`.
   */
  function Split(s: string, c: char): (r: seq<string>)
    ensures |r| >= 1
    ensures forall k :: 0 <= k < |r| ==> c !in r[k]
    ensures Join(r, [c]) == s
    decreases |s|
  {
    if s == [] then [""]
    else
      var rest := Split(s[1..], c);
      if s[0] == c then
        assert Join([""] + rest, [c]) == [c] + Join(rest, [c]);
        [""] + rest
      else
        var r := [[s[0]] + rest[0]] + rest[1..];
        assert Join(r, [c]) == [s[0]] + Join(rest, [c]) by {
          if |rest| > 1 {
            assert r[1..] == rest[1..];
          }
        }
        r
  }

  /** A piece without `c`, then `c`, then more text splits into that piece first. */
  lemma {:induction false} SplitAfterPiece(a: string, c: char, b: string)
    requires c !in a
    ensures Split(a + [c] + b, c) == [a] + Split(b, c)
    decreases |a|
  {
    if a == [] {
      assert a + [c] + b == [c] + b;
      assert ([c] + b)[1..] == b;
    } else {
      SplitAfterPiece(a[1..], c, b);
      assert (a + [c] + b)[1..] == a[1..] + [c] + b;
      assert [a[0]] + a[1..] == a;
    }
  }

  /** A string without `c` is a single piece. */
  lemma {:induction false} SplitWithout(a: string, c: char)
    requires c !in a
    ensures Split(a, c) == [a]
    decreases |a|
  {
    if a != [] {
      SplitWithout(a[1..], c);
      assert [a[0]] + a[1..] == a;
    }
  }

  /** Splitting undoes joining: `Split` and `Join` are inverse on pieces free of `c`. */
  lemma {:induction false} SplitJoin(parts: seq<string>, c: char)
    requires |parts| >= 1
    requires forall k :: 0 <= k < |parts| ==> c !in parts[k]
    ensures Split(Join(parts, [c]), c) == parts
    decreases |parts|
  {
    if |parts| == 1 {
      SplitWithout(parts[0], c);
    } else {
      SplitJoin(parts[1..], c);
      SplitAfterPiece(parts[0], c, Join(parts[1..], [c]));
      assert parts == [parts[0]] + parts[1..];
    }
  }
}
