/** Option, for the one column the pipeline reads that may be missing (a NaN product label). */
module Options {
  datatype Option<+T> = None | Some(value: T)
}

/**
 * The Python string operations the pipeline relies on, written over `seq<char>`:
 * `str.lower`, `str.upper`, `str.strip`, the substring test `k in s`,
 * `str.replace(" ", "")` and `str.split("_")[0]`.
 * Case mapping covers Latin-1 (ASCII letters and the accented letters of
 * Portuguese); see README for what lies outside it.
 */
module Text {

  // ---------------------------------------------------------------- case

  predicate IsUpper(c: char) {
    ('A' <= c <= 'Z') || ('\U{00C0}' <= c <= '\U{00DE}' && c != '\U{00D7}')
  }

  predicate IsLower(c: char) {
    ('a' <= c <= 'z') || ('\U{00E0}' <= c <= '\U{00FE}' && c != '\U{00F7}')
  }

  /** One character of `str.lower`: an upper-case Latin-1 letter moves to its lower-case partner. */
  function LowerChar(c: char): (r: char)
    ensures !IsUpper(r)
    ensures IsUpper(c) ==> IsLower(r) && r as int == c as int + 32
    ensures !IsUpper(c) ==> r == c
  {
    if IsUpper(c) then (c as int + 32) as char else c
  }

  /** One character of `str.upper`. */
  function UpperChar(c: char): (r: char)
    ensures !IsLower(r)
    ensures IsLower(c) ==> IsUpper(r) && r as int == c as int - 32
    ensures !IsLower(c) ==> r == c
  {
    if IsLower(c) then (c as int - 32) as char else c
  }

  function Lower(s: string): (r: string)
    ensures |r| == |s|
    ensures forall i :: 0 <= i < |s| ==> r[i] == LowerChar(s[i])
  {
    seq(|s|, i requires 0 <= i < |s| => LowerChar(s[i]))
  }

  function Upper(s: string): (r: string)
    ensures |r| == |s|
    ensures forall i :: 0 <= i < |s| ==> r[i] == UpperChar(s[i])
  {
    seq(|s|, i requires 0 <= i < |s| => UpperChar(s[i]))
  }

  /** Lower-casing twice is lower-casing once. */
  lemma LowerIdempotent(s: string)
    ensures Lower(Lower(s)) == Lower(s)
  {
  }

  /** A lower-cased string holds no upper-case letter at all. */
  lemma LowerHasNoUpper(s: string)
    ensures forall c :: c in Lower(s) ==> !IsUpper(c)
  {
  }

  /** Lower-casing commutes with taking a slice. */
  lemma LowerSlice(s: string, i: nat, j: nat)
    requires i <= j <= |s|
    ensures Lower(s[i..j]) == Lower(s)[i..j]
  {
  }

  /** Upper-casing never creates a separator that was not there. */
  lemma UpperKeepsUnderscoreOut(s: string)
    requires '_' !in s
    ensures '_' !in Upper(s)
  {
    forall i | 0 <= i < |s| ensures Upper(s)[i] != '_' {
      assert s[i] != '_';
    }
  }

  // ---------------------------------------------------------------- strip

  /** The characters `str.isspace` accepts. */
  predicate IsSpace(c: char) {
    c == ' ' || ('\t' <= c <= '\r') || ('\U{001C}' <= c <= '\U{001F}')
    || c == '\U{0085}' || c == '\U{00A0}' || c == '\U{1680}'
    || ('\U{2000}' <= c <= '\U{200A}') || c == '\U{2028}' || c == '\U{2029}'
    || c == '\U{202F}' || c == '\U{205F}' || c == '\U{3000}'
  }

  /** Case mapping never turns a blank into a non-blank or back. */
  lemma LowerCharKeepsSpace(c: char)
    ensures IsSpace(LowerChar(c)) == IsSpace(c)
  {
  }

  /** Number of blanks at the front of `s`. */
  function LeadingSpaces(s: string): (n: nat)
    ensures n <= |s|
    ensures forall i :: 0 <= i < n ==> IsSpace(s[i])
    ensures n < |s| ==> !IsSpace(s[n])
  {
    if |s| > 0 && IsSpace(s[0]) then 1 + LeadingSpaces(s[1..]) else 0
  }

  /** Number of blanks at the back of `s`. */
  function TrailingSpaces(s: string): (n: nat)
    ensures n <= |s|
    ensures forall i :: |s| - n <= i < |s| ==> IsSpace(s[i])
    ensures n < |s| ==> !IsSpace(s[|s| - 1 - n])
  {
    if |s| > 0 && IsSpace(s[|s| - 1]) then 1 + TrailingSpaces(s[..|s| - 1]) else 0
  }

  /** The two counts above are the only ones with their properties. */
  lemma {:induction false} LeadingSpacesUnique(s: string, n: nat)
    requires n <= |s|
    requires forall i :: 0 <= i < n ==> IsSpace(s[i])
    requires n < |s| ==> !IsSpace(s[n])
    ensures LeadingSpaces(s) == n
  {
    if n > 0 {
      LeadingSpacesUnique(s[1..], n - 1);
    }
  }

  lemma {:induction false} TrailingSpacesUnique(s: string, n: nat)
    requires n <= |s|
    requires forall i :: |s| - n <= i < |s| ==> IsSpace(s[i])
    requires n < |s| ==> !IsSpace(s[|s| - 1 - n])
    ensures TrailingSpaces(s) == n
  {
    if n > 0 {
      TrailingSpacesUnique(s[..|s| - 1], n - 1);
    }
  }

  /** `str.strip()`: drop the blanks at both ends and keep the middle as it is. */
  function Trim(s: string): (r: string)
    ensures |r| <= |s|
    ensures |r| > 0 ==> !IsSpace(r[0]) && !IsSpace(r[|r| - 1])
    ensures forall c :: c in r ==> c in s
    ensures exists i, j :: 0 <= i <= j <= |s| && r == s[i..j]
                           && (forall k :: 0 <= k < i ==> IsSpace(s[k]))
                           && (forall k :: j <= k < |s| ==> IsSpace(s[k]))
  {
    var a := LeadingSpaces(s);
    var t := s[a..];
    var b := TrailingSpaces(t);
    assert t[..|t| - b] == s[a..|s| - b];
    assert forall k :: |s| - b <= k < |s| ==> s[k] == t[k - a];
    t[..|t| - b]
  }

  /** A string with no blank at either end is its own strip. */
  lemma TrimNoEdges(s: string)
    requires |s| > 0 ==> !IsSpace(s[0]) && !IsSpace(s[|s| - 1])
    ensures Trim(s) == s
  {
    LeadingSpacesUnique(s, 0);
    assert s[0..] == s;
    TrailingSpacesUnique(s, 0);
  }

  /** Stripping twice is stripping once. */
  lemma TrimIdempotent(s: string)
    ensures Trim(Trim(s)) == Trim(s)
  {
    TrimNoEdges(Trim(s));
  }

  /** A string made only of blanks strips to the empty string. */
  lemma TrimAllBlank(s: string)
    requires forall i :: 0 <= i < |s| ==> IsSpace(s[i])
    ensures Trim(s) == ""
  {
    LeadingSpacesUnique(s, |s|);
  }

  lemma LeadingSpacesLower(s: string)
    ensures LeadingSpaces(Lower(s)) == LeadingSpaces(s)
  {
    var l := Lower(s);
    forall i | 0 <= i < |s| ensures IsSpace(l[i]) == IsSpace(s[i]) {
      LowerCharKeepsSpace(s[i]);
    }
    LeadingSpacesUnique(l, LeadingSpaces(s));
  }

  lemma TrailingSpacesLower(s: string)
    ensures TrailingSpaces(Lower(s)) == TrailingSpaces(s)
  {
    var l := Lower(s);
    forall i | 0 <= i < |s| ensures IsSpace(l[i]) == IsSpace(s[i]) {
      LowerCharKeepsSpace(s[i]);
    }
    TrailingSpacesUnique(l, TrailingSpaces(s));
  }

  /** Lower-casing and stripping may be done in either order. */
  lemma TrimLowerCommute(s: string)
    ensures Trim(Lower(s)) == Lower(Trim(s))
  {
    var a := LeadingSpaces(s);
    var t := s[a..];
    LeadingSpacesLower(s);
    LowerSuffix(s, a);
    TrailingSpacesLower(t);
    LowerPrefix(t, |t| - TrailingSpaces(t));
  }

  lemma LowerSuffix(s: string, a: nat)
    requires a <= |s|
    ensures Lower(s)[a..] == Lower(s[a..])
  {
    LowerSlice(s, a, |s|);
    assert s[a..|s|] == s[a..];
  }

  lemma LowerPrefix(s: string, m: nat)
    requires m <= |s|
    ensures Lower(s)[..m] == Lower(s[..m])
  {
    LowerSlice(s, 0, m);
    assert s[..m] == s[0..m];
    assert Lower(s)[..m] == Lower(s)[0..m];
  }

  // ---------------------------------------------------------------- substring

  /** `k` occurs in `s` starting at position `i`. */
  predicate OccursAt(k: string, s: string, i: nat) {
    i + |k| <= |s| && s[i..i + |k|] == k
  }

  /** Python's `k in s` on strings. */
  predicate Occurs(k: string, s: string) {
    exists i :: 0 <= i <= |s| && OccursAt(k, s, i)
  }

  /** Every character of an occurring keyword is a character of the text. */
  lemma OccursChars(k: string, s: string, c: char)
    requires Occurs(k, s) && c in k
    ensures c in s
  {
    var i :| 0 <= i <= |s| && OccursAt(k, s, i);
    var j :| 0 <= j < |k| && k[j] == c;
    assert s[i..i + |k|][j] == s[i + j];
  }

  /** A keyword with a character the text lacks does not occur in it. */
  lemma MissingChar(k: string, s: string, c: char)
    requires c in k && c !in s
    ensures !Occurs(k, s)
  {
    if Occurs(k, s) {
      OccursChars(k, s, c);
    }
  }

  /** Only the empty keyword occurs in the empty text. */
  lemma OccursInEmpty(k: string)
    requires |k| > 0
    ensures !Occurs(k, "")
  {
  }

  /** A keyword is found at the very front of a text that starts with it. */
  lemma OccursPrefix(k: string, s: string)
    requires |k| <= |s| && s[..|k|] == k
    ensures Occurs(k, s)
  {
    assert OccursAt(k, s, 0);
  }

  /** An occurrence of `k` inside the piece `s[i..j]` is an occurrence in `s`. */
  lemma OccursInSlice(k: string, s: string, i: nat, j: nat)
    requires i <= j <= |s| && Occurs(k, s[i..j])
    ensures Occurs(k, s)
  {
    var p :| 0 <= p <= j - i && OccursAt(k, s[i..j], p);
    forall q | 0 <= q < |k| ensures s[i + p + q] == k[q] {
      assert s[i..j][p..p + |k|][q] == k[q];
    }
    assert OccursAt(k, s, i + p);
  }

  /** An occurrence of `k` contains every piece of `k`. */
  lemma OccursSub(k: string, s: string, a: nat, b: nat)
    requires a <= b <= |k| && Occurs(k, s)
    ensures Occurs(k[a..b], s)
  {
    var p :| 0 <= p <= |s| && OccursAt(k, s, p);
    forall q | a <= q < b ensures s[p + q] == k[q] {
      assert s[p..p + |k|][q] == k[q];
    }
    assert OccursAt(k[a..b], s, p + a);
  }

  /**
   * A two-letter keyword occurs in `x + y` only inside `x`, inside `y`,
   * or across the seam.
   */
  lemma OccursPairSplit(k: string, x: string, y: string)
    requires |k| == 2 && Occurs(k, x + y)
    ensures Occurs(k, x) || Occurs(k, y) || (|x| > 0 && |y| > 0 && x[|x| - 1] == k[0] && y[0] == k[1])
  {
    var s := x + y;
    var p :| 0 <= p <= |s| && OccursAt(k, s, p);
    assert s[p] == k[0] && s[p + 1] == k[1] by { assert s[p..p + 2] == k; }
    if p + 2 <= |x| {
      assert x[p..p + 2] == s[p..p + 2];
      assert OccursAt(k, x, p);
    } else if p >= |x| {
      assert y[p - |x|..p - |x| + 2] == s[p..p + 2];
      assert OccursAt(k, y, p - |x|);
    }
  }

  // ---------------------------------------------------------------- replace / split

  /** `str.replace(" ", "")`: delete every space character and nothing else. */
  function StripSpaces(s: string): (r: string)
    ensures ' ' !in r
    ensures multiset(r) == multiset(s)[' ' := 0]
  {
    if s == [] then []
    else
      assert s == [s[0]] + s[1..];
      (if s[0] == ' ' then [] else [s[0]]) + StripSpaces(s[1..])
  }

  /** Deleting spaces keeps the other characters in their order. */
  lemma {:induction false} StripSpacesAppend(a: string, b: string)
    ensures StripSpaces(a + b) == StripSpaces(a) + StripSpaces(b)
  {
    if a == [] {
      assert a + b == b;
    } else {
      assert (a + b)[1..] == a[1..] + b;
      StripSpacesAppend(a[1..], b);
    }
  }

  /** A text with no space is left exactly as it is. */
  lemma {:induction false} StripSpacesNoSpace(s: string)
    requires ' ' !in s
    ensures StripSpaces(s) == s
  {
    if s != [] {
      StripSpacesNoSpace(s[1..]);
    }
  }

  /** `s.split(sep)[0]`: the text before the first `sep`, or all of `s` when there is none. */
  function BeforeFirst(s: string, sep: char): (r: string)
    ensures sep !in r
    ensures |r| <= |s| && r == s[..|r|]
    ensures |r| < |s| ==> s[|r|] == sep
  {
    if s == [] || s[0] == sep then []
    else [s[0]] + BeforeFirst(s[1..], sep)
  }
}
