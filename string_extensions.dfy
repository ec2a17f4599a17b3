/**
 * The string normaliser (Extensions/StringExtensions.cs): trimming, lower-casing
 * and the PascalCase split used on Acme facility codes.
 */
module StringExtensions {
  import opened Wrappers

  /** `char.IsWhiteSpace`: U+0009..U+000D, U+0085 and the Unicode space, line and paragraph separators. */
  predicate IsWhiteSpace(c: char) {
    || ('\t' <= c <= '\r')
    || c == ' '
    || c == '\U{0085}'
    || c == '\U{00A0}'
    || c == '\U{1680}'
    || ('\U{2000}' <= c <= '\U{200A}')
    || c == '\U{2028}'
    || c == '\U{2029}'
    || c == '\U{202F}'
    || c == '\U{205F}'
    || c == '\U{3000}'
  }

  /** The regular-expression class `[A-Z]`. */
  predicate IsUpper(c: char) { 'A' <= c <= 'Z' }

  /** The regular-expression class `[a-z]`. */
  predicate IsLower(c: char) { 'a' <= c <= 'z' }

  /** The regular-expression class `[A-Za-z]`. */
  predicate IsLetter(c: char) { IsUpper(c) || IsLower(c) }

  /** Every character of `s[lo..hi]` is white space. */
  ghost predicate WhiteBetween(s: string, lo: int, hi: int) {
    forall i :: lo <= i < hi && 0 <= i < |s| ==> IsWhiteSpace(s[i])
  }

  ghost predicate AllWhiteSpace(s: string) {
    WhiteBetween(s, 0, |s|)
  }

  /** Neither the first nor the last character is white space. */
  ghost predicate NoOuterWhiteSpace(s: string) {
    s == [] || (!IsWhiteSpace(s[0]) && !IsWhiteSpace(s[|s| - 1]))
  }

  ghost predicate NoUpper(s: string) {
    forall i :: 0 <= i < |s| ==> !IsUpper(s[i])
  }

  /** `char.ToLower` on the ASCII letters; every other character is left alone. */
  function ToLowerChar(c: char): (r: char)
    ensures !IsUpper(r)
    ensures IsUpper(c) ==> IsLower(r) && r as int == c as int + 32
    ensures !IsUpper(c) ==> r == c
  {
    if IsUpper(c) then (c as int + 32) as char else c
  }

  /** `string.ToLower`. */
  function ToLower(s: string): (r: string)
    ensures |r| == |s| && NoUpper(r)
    ensures forall i :: 0 <= i < |s| ==> r[i] == ToLowerChar(s[i])
  {
    seq(|s|, i requires 0 <= i < |s| => ToLowerChar(s[i]))
  }

  /** The first index at or after `i` whose character is not white space, or `|s|`. */
  function LeadingWhiteEnd(s: string, i: nat): (n: nat)
    requires i <= |s|
    ensures i <= n <= |s| && WhiteBetween(s, i, n)
    ensures n == |s| || !IsWhiteSpace(s[n])
    decreases |s| - i
  {
    if i < |s| && IsWhiteSpace(s[i]) then LeadingWhiteEnd(s, i + 1) else i
  }

  /**
   * The end of `s[lo..j]` once its trailing white space is dropped: the smallest
   * `e >= lo` with only white space in `s[e..j]`.
   */
  function TrailingWhiteStart(s: string, lo: nat, j: nat): (e: nat)
    requires lo <= j <= |s|
    ensures lo <= e <= j && WhiteBetween(s, e, j)
    ensures e == lo || !IsWhiteSpace(s[e - 1])
    decreases j
  {
    if lo < j && IsWhiteSpace(s[j - 1]) then TrailingWhiteStart(s, lo, j - 1) else j
  }

  /**
   * `Beautify` (StringExtensions.cs:42-45), i.e. `string.Trim()`: the input with its
   * leading and trailing white space removed and its interior untouched.
   */
  function Beautify(s: string): (r: string)
    ensures NoOuterWhiteSpace(r)
    ensures var lead := LeadingWhiteEnd(s, 0);
      && lead + |r| <= |s|
      && r == s[lead..lead + |r|]
      && WhiteBetween(s, 0, lead)
      && WhiteBetween(s, lead + |r|, |s|)
  {
    var lead := LeadingWhiteEnd(s, 0);
    var end := TrailingWhiteStart(s, lead, |s|);
    TrimmedEnds(s, lead, end);
    s[lead..end]
  }

  /** What `Beautify` needs from the two scans, without their definitions. */
  lemma TrimmedEnds(s: string, lead: nat, end: nat)
    requires lead <= end <= |s|
    requires lead == |s| || !IsWhiteSpace(s[lead])
    requires end == lead || !IsWhiteSpace(s[end - 1])
    ensures NoOuterWhiteSpace(s[lead..end])
  {
    if lead < end {
      assert lead < |s|;
      assert s[lead..end][0] == s[lead];
      assert s[lead..end][end - lead - 1] == s[end - 1];
    }
  }

  /** `BeautifyNullable` (StringExtensions.cs:52-55): `value?.Trim()`. */
  function BeautifyNullable(s: Option<string>): (r: Option<string>)
    ensures r.None? <==> s.None?
    ensures r.Some? ==> r.value == Beautify(s.value) && NoOuterWhiteSpace(r.value)
  {
    match s
    case None => None
    case Some(v) => Some(Beautify(v))
  }

  /** `BeautifyAndToLower` (StringExtensions.cs:18-21): trimmed, then lower-cased. */
  function BeautifyAndToLower(s: string): (r: string)
    ensures NoOuterWhiteSpace(r) && NoUpper(r)
    ensures |r| == |Beautify(s)|
    ensures forall i :: 0 <= i < |r| ==> r[i] == ToLowerChar(Beautify(s)[i])
  {
    var b := Beautify(s);
    var r := ToLower(b);
    if b == [] then r
    else
      LowerKeepsWhiteSpace(b[0]);
      LowerKeepsWhiteSpace(b[|b| - 1]);
      r
  }

  /** Lower-casing never turns a character into white space or back. */
  lemma LowerKeepsWhiteSpace(c: char)
    ensures IsWhiteSpace(ToLowerChar(c)) == IsWhiteSpace(c)
  {
    if IsUpper(c) {
      assert IsLower(ToLowerChar(c));
    }
  }

  // ---------------------------------------------------------------------------
  // The PascalCase split (StringExtensions.cs:10, 28-35)
  // ---------------------------------------------------------------------------

  /**
   * Position `i` of `t` is matched by the zero-width split pattern
   * `(?<=[A-Z])(?=[A-Z][a-z]) | (?<=[^A-Z])(?=[A-Z]) | (?<=[A-Za-z])(?=[^A-Za-z])`.
   * Each alternative needs one character before and one after the position. A word
   * starts at a capital that follows a non-capital or that begins a lower-case run
   * ("HTMLParser" cuts before the `P`), a run of capitals is kept together, and a
   * letter followed by anything else ends a word.
   */
  function IsSplitBoundary(t: string, i: int): (b: bool)
    ensures b ==> 0 < i < |t| && (IsUpper(t[i]) || (IsLetter(t[i - 1]) && !IsLetter(t[i])))
    ensures 0 < i < |t| && !IsUpper(t[i - 1]) && IsUpper(t[i]) ==> b
    ensures 0 < i < |t| && IsLetter(t[i - 1]) && !IsLetter(t[i]) ==> b
    ensures 0 < i && i + 1 < |t| && IsUpper(t[i]) && IsLower(t[i + 1]) ==> b
    ensures 0 < i < |t| && IsUpper(t[i - 1]) && IsUpper(t[i]) && (i + 1 == |t| || !IsLower(t[i + 1])) ==> !b
  {
    && 0 < i < |t|
    && (|| (IsUpper(t[i - 1]) && IsUpper(t[i]) && i + 1 < |t| && IsLower(t[i + 1]))
        || (!IsUpper(t[i - 1]) && IsUpper(t[i]))
        || (IsLetter(t[i - 1]) && !IsLetter(t[i])))
  }

  /** The concatenation of the pieces. */
  function Concat(pieces: seq<string>): string {
    if pieces == [] then [] else pieces[0] + Concat(pieces[1..])
  }

  /**
   * The pieces `Regex.Split` returns for `t[start..]`, when the current piece began
   * at `start` and the positions `start+1 .. i-1` were not matched.
   */
  function SplitFrom(t: string, start: nat, i: nat): (pieces: seq<string>)
    requires start < i <= |t|
    ensures |pieces| >= 1
    ensures Concat(pieces) == t[start..]
    ensures forall k :: 0 <= k < |pieces| ==> pieces[k] != []
    decreases |t| - i
  {
    if i == |t| then
      [t[start..]]
    else if IsSplitBoundary(t, i) then
      var rest := SplitFrom(t, i, i + 1);
      assert t[start..] == t[start..i] + t[i..];
      [t[start..i]] + rest
    else
      SplitFrom(t, start, i + 1)
  }

  /** `SplitPascalCaseRegex().Split(t)`: `t` cut at every boundary position. */
  function RegexSplit(t: string): (pieces: seq<string>)
    ensures |pieces| >= 1
    ensures Concat(pieces) == t
    ensures t != [] ==> forall k :: 0 <= k < |pieces| ==> pieces[k] != []
  {
    if t == [] then [t] else SplitFrom(t, 0, 1)
  }

  /** `string.Join(separator, parts)`. */
  function Join(separator: string, parts: seq<string>): string {
    if |parts| == 0 then ""
    else if |parts| == 1 then parts[0]
    else parts[0] + separator + Join(separator, parts[1..])
  }

  /** `Select(v => v.ToLower())` over the pieces. */
  function LowerEach(parts: seq<string>): (r: seq<string>)
    ensures |r| == |parts|
    ensures forall k :: 0 <= k < |parts| ==> r[k] == ToLower(parts[k])
  {
    seq(|parts|, k requires 0 <= k < |parts| => ToLower(parts[k]))
  }

  /**
   * `BeatifyAndSplitAndToLower` (StringExtensions.cs:28-35): the trimmed input,
   * lower-cased, with exactly one space inserted at each split boundary and nowhere else.
   */
  function BeatifyAndSplitAndToLower(s: string): (r: string)
    ensures r == Spaced(Beautify(s), 0)
  {
    var t := Beautify(s);
    RegexSplitIsSpaced(t);
    Join(" ", LowerEach(RegexSplit(t)))
  }

  /**
   * Reference definition of the split-and-lower result for `t[i..]`: each character
   * lower-cased, preceded by exactly one space when a boundary falls before it.
   */
  function Spaced(t: string, i: nat): string
    decreases |t| - i
  {
    if i >= |t| then ""
    else (if IsSplitBoundary(t, i) then " " else "") + [ToLowerChar(t[i])] + Spaced(t, i + 1)
  }

  // ---------------------------------------------------------------------------
  // Properties
  // ---------------------------------------------------------------------------

  /**
   * Trimming removes exactly the outer white space: whatever white space surrounds a
   * string without outer white space, `Beautify` gives that string back.
   */
  lemma BeautifyUnique(w1: string, m: string, w2: string)
    requires AllWhiteSpace(w1) && AllWhiteSpace(w2) && NoOuterWhiteSpace(m)
    ensures Beautify(w1 + m + w2) == m
  {
    var x := w1 + m + w2;
    var r := Beautify(x);
    var lead := LeadingWhiteEnd(x, 0);
    if m != [] {
      assert x[|w1|] == m[0];
      assert x[|w1| + |m| - 1] == m[|m| - 1];
      // The first kept character is the first non-white one, which is m[0].
      assert lead <= |w1|;
      assert r != [];
      assert r[0] == x[lead];
      assert lead == |w1|;
      // The last kept character is the last non-white one, m[|m| - 1].
      assert lead + |r| >= |w1| + |m|;
      assert r[|r| - 1] == x[lead + |r| - 1];
      assert lead + |r| == |w1| + |m|;
      assert x[|w1|..|w1| + |m|] == m;
    }
  }

  /** A string without outer white space is returned unchanged. */
  lemma BeautifyKeepsTrimmed(s: string)
    requires NoOuterWhiteSpace(s)
    ensures Beautify(s) == s
  {
    BeautifyUnique([], s, []);
    assert [] + s + [] == s;
  }

  /** `Beautify` is idempotent. */
  lemma BeautifyIdempotent(s: string)
    ensures Beautify(Beautify(s)) == Beautify(s)
  {
    BeautifyKeepsTrimmed(Beautify(s));
  }

  /** Lower-casing a string without upper-case letters changes nothing. */
  lemma ToLowerKeepsLower(s: string)
    requires NoUpper(s)
    ensures ToLower(s) == s
  {
  }

  /** `BeautifyAndToLower` is idempotent. */
  lemma BeautifyAndToLowerIdempotent(s: string)
    ensures BeautifyAndToLower(BeautifyAndToLower(s)) == BeautifyAndToLower(s)
  {
    var r := BeautifyAndToLower(s);
    BeautifyKeepsTrimmed(r);
    ToLowerKeepsLower(r);
  }

  /** Empty or all-white input: every normaliser yields the empty string. */
  lemma BlankNormalisesToEmpty(s: string)
    requires AllWhiteSpace(s)
    ensures Beautify(s) == ""
    ensures BeautifyNullable(Some(s)) == Some("")
    ensures BeautifyAndToLower(s) == ""
    ensures BeatifyAndSplitAndToLower(s) == ""
  {
    BeautifyUnique(s, [], []);
    assert s + [] + [] == s;
  }

  lemma ToLowerAppend(a: string, b: string)
    ensures ToLower(a + b) == ToLower(a) + ToLower(b)
  {
  }

  /**
   * Joining the lower-cased pieces of `t[start..]` (current piece begun at `start`,
   * scan at `i`) gives the lower-cased current piece followed by the reference
   * spacing of the rest.
   */
  lemma {:induction false} SplitFromIsSpaced(t: string, start: nat, i: nat)
    requires start < i <= |t|
    ensures Join(" ", LowerEach(SplitFrom(t, start, i))) == ToLower(t[start..i]) + Spaced(t, i)
    decreases |t| - i
  {
    if i == |t| {
      assert t[start..] == t[start..i];
    } else if IsSplitBoundary(t, i) {
      SplitFromIsSpaced(t, i, i + 1);
      BoundaryStep(t, start, i);
    } else {
      SplitFromIsSpaced(t, start, i + 1);
      PlainStep(t, start, i);
    }
  }

  /** At a boundary the current piece is closed and a space is emitted before `t[i]`. */
  lemma BoundaryStep(t: string, start: nat, i: nat)
    requires start < i < |t| && IsSplitBoundary(t, i)
    requires Join(" ", LowerEach(SplitFrom(t, i, i + 1))) == ToLower(t[i..i + 1]) + Spaced(t, i + 1)
    ensures Join(" ", LowerEach(SplitFrom(t, start, i))) == ToLower(t[start..i]) + Spaced(t, i)
  {
    var rest := SplitFrom(t, i, i + 1);
    var head := ToLower(t[start..i]);
    var c := [ToLowerChar(t[i])];
    SplitFromBoundary(t, start, i);
    LowerEachCons(t[start..i], rest);
    JoinCons(head, LowerEach(rest));
    LowerOne(t, i);
    SpacedBoundary(t, i);
    RegroupSpace(head, " ", c, Spaced(t, i + 1));
  }

  /** At a boundary the current piece is closed and a new one begins at `i`. */
  lemma SplitFromBoundary(t: string, start: nat, i: nat)
    requires start < i < |t| && IsSplitBoundary(t, i)
    ensures SplitFrom(t, start, i) == [t[start..i]] + SplitFrom(t, i, i + 1)
  {
  }

  lemma LowerOne(t: string, i: nat)
    requires i < |t|
    ensures ToLower(t[i..i + 1]) == [ToLowerChar(t[i])]
  {
  }

  lemma RegroupSpace<T>(a: seq<T>, b: seq<T>, c: seq<T>, d: seq<T>)
    ensures a + b + (c + d) == a + (b + c + d)
  {
  }

  /** Away from a boundary `t[i]` joins the current piece. */
  lemma PlainStep(t: string, start: nat, i: nat)
    requires start < i < |t| && !IsSplitBoundary(t, i)
    requires Join(" ", LowerEach(SplitFrom(t, start, i + 1))) == ToLower(t[start..i + 1]) + Spaced(t, i + 1)
    ensures Join(" ", LowerEach(SplitFrom(t, start, i))) == ToLower(t[start..i]) + Spaced(t, i)
  {
    SplitFromPlain(t, start, i);
    LowerExtend(t, start, i);
    SpacedPlain(t, i);
    Regroup(ToLower(t[start..i]), [ToLowerChar(t[i])], Spaced(t, i + 1));
  }

  /** Away from a boundary the scan moves on within the current piece. */
  lemma SplitFromPlain(t: string, start: nat, i: nat)
    requires start < i < |t| && !IsSplitBoundary(t, i)
    ensures SplitFrom(t, start, i) == SplitFrom(t, start, i + 1)
  {
  }

  /** `Spaced` unfolded once where no boundary falls. */
  lemma SpacedPlain(t: string, i: nat)
    requires i < |t| && !IsSplitBoundary(t, i)
    ensures Spaced(t, i) == [ToLowerChar(t[i])] + Spaced(t, i + 1)
  {
    assert "" + [ToLowerChar(t[i])] == [ToLowerChar(t[i])];
  }

  /** `Spaced` unfolded once at a boundary. */
  lemma SpacedBoundary(t: string, i: nat)
    requires i < |t| && IsSplitBoundary(t, i)
    ensures Spaced(t, i) == " " + [ToLowerChar(t[i])] + Spaced(t, i + 1)
  {
  }

  lemma Regroup<T>(a: seq<T>, b: seq<T>, c: seq<T>)
    ensures (a + b) + c == a + (b + c)
  {
  }

  lemma LowerExtend(t: string, start: nat, i: nat)
    requires start <= i < |t|
    ensures ToLower(t[start..i + 1]) == ToLower(t[start..i]) + [ToLowerChar(t[i])]
  {
    assert t[start..i + 1] == t[start..i] + [t[i]];
    ToLowerAppend(t[start..i], [t[i]]);
  }

  lemma LowerEachCons(x: string, xs: seq<string>)
    ensures LowerEach([x] + xs) == [ToLower(x)] + LowerEach(xs)
  {
  }

  lemma JoinCons(x: string, xs: seq<string>)
    requires |xs| >= 1
    ensures Join(" ", [x] + xs) == x + " " + Join(" ", xs)
  {
    assert ([x] + xs)[1..] == xs;
  }

  /**
   * Splitting `t` at the pattern, lower-casing the pieces and joining them with one
   * space is lower-casing `t` with one space at each boundary.
   */
  lemma RegexSplitIsSpaced(t: string)
    ensures Join(" ", LowerEach(RegexSplit(t))) == Spaced(t, 0)
  {
    if t != [] {
      SplitFromIsSpaced(t, 0, 1);
      assert !IsSplitBoundary(t, 0);
    }
  }

  /** No boundary falls before a lower-case letter. */
  lemma NoBoundaryBeforeLower(t: string, i: nat)
    requires i < |t| && IsLower(t[i])
    ensures !IsSplitBoundary(t, i)
  {
  }

  /** Over a run of lower-case letters `Spaced` copies the run unchanged. */
  lemma {:induction false} SpacedLowerRun(t: string, i: nat, j: nat)
    requires i <= j <= |t|
    requires forall k :: i <= k < j ==> IsLower(t[k])
    ensures Spaced(t, i) == t[i..j] + Spaced(t, j)
    decreases j - i
  {
    if i < j {
      SpacedLowerRun(t, i + 1, j);
      SpacedLowerStep(t, i, j);
    }
  }

  /** One lower-case letter of the run: `Spaced` copies it and adds no space. */
  lemma SpacedLowerStep(t: string, i: nat, j: nat)
    requires i < j <= |t| && IsLower(t[i])
    requires Spaced(t, i + 1) == t[i + 1..j] + Spaced(t, j)
    ensures Spaced(t, i) == t[i..j] + Spaced(t, j)
  {
    NoBoundaryBeforeLower(t, i);
    SpacedPlain(t, i);
    assert ToLowerChar(t[i]) == t[i];
    assert t[i..j] == [t[i]] + t[i + 1..j];
    Regroup([t[i]], t[i + 1..j], Spaced(t, j));
  }

  /** A word made only of lower-case letters passes through the split unchanged. */
  lemma SplitKeepsLowerWord(t: string)
    requires forall k :: 0 <= k < |t| ==> IsLower(t[k])
    ensures BeatifyAndSplitAndToLower(t) == t
  {
    BeautifyKeepsTrimmed(t);
    SpacedLowerRun(t, 0, |t|);
  }

  /**
   * Two capitalised words are split apart and lower-cased, with one space between
   * them: "BusinessCentre" becomes "business centre".
   */
  lemma SplitTwoCapitalisedWords(a: char, w1: string, b: char, w2: string)
    requires IsUpper(a) && IsUpper(b) && w1 != []
    requires forall k :: 0 <= k < |w1| ==> IsLower(w1[k])
    requires forall k :: 0 <= k < |w2| ==> IsLower(w2[k])
    ensures BeatifyAndSplitAndToLower([a] + w1 + [b] + w2)
         == [ToLowerChar(a)] + w1 + " " + [ToLowerChar(b)] + w2
  {
    var t := [a] + w1 + [b] + w2;
    var p := 1 + |w1|;
    TwoWordsLayout(a, w1, b, w2);
    BeautifyKeepsTrimmed(t);
    SpacedTwoWords(t, p);
  }

  /** Where the letters of `[a] + w1 + [b] + w2` sit. */
  lemma TwoWordsLayout(a: char, w1: string, b: char, w2: string)
    requires IsUpper(a) && IsUpper(b) && w1 != []
    requires forall k :: 0 <= k < |w1| ==> IsLower(w1[k])
    requires forall k :: 0 <= k < |w2| ==> IsLower(w2[k])
    ensures var t := [a] + w1 + [b] + w2; var p := 1 + |w1|;
      && p < |t| && t[0] == a && t[p] == b && t[1..p] == w1 && t[p + 1..] == w2
      && (forall k :: 1 <= k < p ==> IsLower(t[k]))
      && (forall k :: p < k < |t| ==> IsLower(t[k]))
      && NoOuterWhiteSpace(t)
  {
    var t := [a] + w1 + [b] + w2;
    var p := 1 + |w1|;
    assert t[1..p] == w1 && t[p + 1..] == w2;
    assert forall k :: 1 <= k < p ==> t[k] == w1[k - 1];
    assert forall k :: p < k < |t| ==> t[k] == w2[k - p - 1];
    if w2 == [] { assert t[|t| - 1] == b; } else { assert t[|t| - 1] == w2[|w2| - 1]; }
  }

  lemma SpacedTwoWords(t: string, p: nat)
    requires 1 < p < |t| && IsUpper(t[0]) && IsUpper(t[p])
    requires forall k :: 1 <= k < p ==> IsLower(t[k])
    requires forall k :: p < k < |t| ==> IsLower(t[k])
    ensures Spaced(t, 0) == [ToLowerChar(t[0])] + t[1..p] + " " + [ToLowerChar(t[p])] + t[p + 1..]
  {
    var la, lb := [ToLowerChar(t[0])], [ToLowerChar(t[p])];
    SpacedLowerTail(t, p + 1);
    SecondWordBoundary(t, p);
    SpacedBoundary(t, p);
    SpacedLowerRun(t, 1, p);
    assert !IsSplitBoundary(t, 0);
    SpacedPlain(t, 0);
    Regroup5(la, t[1..p], " ", lb, t[p + 1..]);
  }

  /** A lower-case tail passes through `Spaced` unchanged. */
  lemma SpacedLowerTail(t: string, i: nat)
    requires i <= |t|
    requires forall k :: i <= k < |t| ==> IsLower(t[k])
    ensures Spaced(t, i) == t[i..]
  {
    SpacedLowerRun(t, i, |t|);
    assert t[i..|t|] == t[i..] && Spaced(t, |t|) == [];
  }

  /** A capital after a lower-case letter starts a new word. */
  lemma SecondWordBoundary(t: string, p: nat)
    requires 1 < p < |t| && IsUpper(t[p]) && IsLower(t[p - 1])
    ensures IsSplitBoundary(t, p)
  {
  }

  lemma Regroup5<T>(a: seq<T>, b: seq<T>, c: seq<T>, d: seq<T>, e: seq<T>)
    ensures a + (b + (c + d + e)) == a + b + c + d + e
  {
  }
}
