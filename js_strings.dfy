/** The JavaScript string operations the preview handlers use, over `seq<char>`:
    `startsWith`, `includes`, `indexOf`, `lastIndexOf`, ASCII `toLowerCase`, `trim`,
    `replace(/\s+/g, ' ')` and a decimal `parseInt`. */
module JsStrings {
  import opened JsValues

  /** ECMAScript WhiteSpace and LineTerminator code points: the set matched by `\s`
      and removed by `String.prototype.trim`. */
  predicate IsSpace(c: char) {
    var n := c as int;
    n == 0x09 || n == 0x0A || n == 0x0B || n == 0x0C || n == 0x0D || n == 0x20
    || n == 0xA0 || n == 0x1680 || (0x2000 <= n <= 0x200A) || n == 0x2028 || n == 0x2029
    || n == 0x202F || n == 0x205F || n == 0x3000 || n == 0xFEFF
  }

  predicate AllSpaces(s: string) {
    forall i :: 0 <= i < |s| ==> IsSpace(s[i])
  }

  /** No whitespace at either end. */
  predicate Trimmed(s: string) {
    s == [] || (!IsSpace(s[0]) && !IsSpace(s[|s| - 1]))
  }

  /** No two adjacent whitespace characters, and every whitespace character is a plain space. */
  predicate SpacesCollapsed(s: string) {
    && (forall i :: 0 <= i < |s| - 1 ==> !(IsSpace(s[i]) && IsSpace(s[i + 1])))
    && (forall i :: 0 <= i < |s| && IsSpace(s[i]) ==> s[i] == ' ')
  }

  /** The non-whitespace characters of `s`, in order. */
  function NonSpace(s: string): string {
    if s == [] then [] else (if IsSpace(s[0]) then [] else [s[0]]) + NonSpace(s[1..])
  }

  lemma {:induction false} NonSpaceAppend(a: string, b: string)
    ensures NonSpace(a + b) == NonSpace(a) + NonSpace(b)
  {
    if a == [] {
      assert a + b == b;
    } else {
      assert (a + b)[1..] == a[1..] + b;
      NonSpaceAppend(a[1..], b);
    }
  }

  /** `s.startsWith(prefix)`. */
  predicate StartsWith(s: string, prefix: string) {
    |prefix| <= |s| && s[..|prefix|] == prefix
  }

  predicate EndsWith(s: string, suffix: string) {
    |suffix| <= |s| && s[|s| - |suffix|..] == suffix
  }

  predicate OccursAt(s: string, pat: string, i: int) {
    0 <= i && i + |pat| <= |s| && s[i..i + |pat|] == pat
  }

  /** `s.indexOf(pat, k)` for `k <= |s|`: the first occurrence at or after `k`, or -1. */
  function IndexOfFrom(s: string, pat: string, k: nat): (r: int)
    requires k <= |s|
    ensures r == -1 || (k <= r && OccursAt(s, pat, r))
    ensures r == -1 ==> forall i :: k <= i ==> !OccursAt(s, pat, i)
    ensures r >= 0 ==> forall i :: k <= i < r ==> !OccursAt(s, pat, i)
    decreases |s| - k
  {
    if k + |pat| > |s| then -1
    else if s[k..k + |pat|] == pat then k
    else IndexOfFrom(s, pat, k + 1)
  }

  /** `s.indexOf(pat)`. */
  function IndexOf(s: string, pat: string): (r: int)
    ensures r == -1 <==> forall i :: !OccursAt(s, pat, i)
    ensures r >= 0 ==> OccursAt(s, pat, r) && forall i :: 0 <= i < r ==> !OccursAt(s, pat, i)
  {
    IndexOfFrom(s, pat, 0)
  }

  /** `s.includes(pat)`. */
  function Includes(s: string, pat: string): (r: bool)
    ensures r <==> exists i :: OccursAt(s, pat, i)
  {
    IndexOf(s, pat) >= 0
  }

  /** `s.lastIndexOf(c)` for a one-character argument. */
  function LastIndexOf(s: string, c: char): (r: int)
    ensures -1 <= r < |s|
    ensures r >= 0 ==> s[r] == c
    ensures forall i :: r < i < |s| ==> s[i] != c
  {
    if s == [] then -1
    else if s[|s| - 1] == c then |s| - 1
    else LastIndexOf(s[..|s| - 1], c)
  }

  function LowerChar(c: char): char {
    if 'A' <= c <= 'Z' then (c as int + 32) as char else c
  }

  /** `s.toLowerCase()` on ASCII letters (host names out of a URL parser are ASCII). */
  function ToLowerAscii(s: string): (r: string)
    ensures |r| == |s|
    ensures forall i :: 0 <= i < |s| ==> r[i] == LowerChar(s[i])
    ensures forall i :: 0 <= i < |r| ==> !('A' <= r[i] <= 'Z')
  {
    if s == [] then [] else [LowerChar(s[0])] + ToLowerAscii(s[1..])
  }

  /** Lower-casing a lower-cased string changes nothing. */
  lemma ToLowerAsciiIdempotent(s: string)
    ensures ToLowerAscii(ToLowerAscii(s)) == ToLowerAscii(s)
  {
  }

  /** A non-empty prefix is the head followed by a prefix of the tail. */
  lemma PrefixOfTail(s: string, k: nat)
    requires 0 < k <= |s|
    ensures s[..k] == [s[0]] + s[1..][..k - 1]
  {
  }

  /** `s.trimStart()`: drop the leading whitespace. */
  function TrimStart(s: string): (r: string)
    ensures |r| <= |s| && r == s[|s| - |r|..]
    ensures AllSpaces(s[..|s| - |r|])
    ensures r == [] || !IsSpace(r[0])
    ensures NonSpace(r) == NonSpace(s)
  {
    if s != [] && IsSpace(s[0]) then
      var r := TrimStart(s[1..]);
      PrefixOfTail(s, |s| - |r|);
      r
    else s
  }

  /** A suffix that reaches the end is a suffix of the string without its last
      character, followed by that character. */
  lemma SuffixOfInit(s: string, k: nat)
    requires k < |s|
    ensures s[k..] == s[..|s| - 1][k..] + [s[|s| - 1]]
  {
  }

  /** `s.trimEnd()`: drop the trailing whitespace. */
  function TrimEnd(s: string): (r: string)
    ensures |r| <= |s| && r == s[..|r|]
    ensures AllSpaces(s[|r|..])
    ensures r == [] || !IsSpace(r[|r| - 1])
  {
    if s != [] && IsSpace(s[|s| - 1]) then
      var r := TrimEnd(s[..|s| - 1]);
      SuffixOfInit(s, |r|);
      r
    else s
  }

  /** Cutting whitespace off the end keeps every other character. */
  lemma {:induction false} TrimEndNonSpace(s: string)
    ensures NonSpace(TrimEnd(s)) == NonSpace(s)
    decreases |s|
  {
    if s != [] && IsSpace(s[|s| - 1]) {
      var init := s[..|s| - 1];
      assert s == init + [s[|s| - 1]];
      NonSpaceAppend(init, [s[|s| - 1]]);
      assert NonSpace([s[|s| - 1]]) == [];
      TrimEndNonSpace(init);
    }
  }

  /** `s.trim()`: the result is `s` with its whitespace ends cut off, and nothing else. */
  function Trim(s: string): (r: string)
    ensures Trimmed(r)
    ensures exists i, j :: 0 <= i <= j <= |s| && r == s[i..j] && AllSpaces(s[..i]) && AllSpaces(s[j..])
    ensures NonSpace(r) == NonSpace(s)
  {
    var a := TrimStart(s);
    var r := TrimEnd(a);
    TrimEndNonSpace(a);
    SliceOfSuffix(s, a, r);
    assert r != [] ==> r[0] == a[0];
    r
  }

  /** A prefix `r` of a suffix `a` of `s` is a slice of `s`, and what follows it in `a`
      is the rest of `s`. */
  lemma SliceOfSuffix(s: string, a: string, r: string)
    requires |a| <= |s| && a == s[|s| - |a|..]
    requires |r| <= |a| && r == a[..|r|]
    ensures s[|s| - |a|..|s| - |a| + |r|] == r && s[|s| - |a| + |r|..] == a[|r|..]
  {
  }

  /** `s.replace(/\s+/g, ' ')`: every maximal run of whitespace becomes one plain space. */
  function CollapseSpaces(s: string): (r: string)
    ensures r == [] <==> s == []
    ensures r != [] ==> (IsSpace(r[0]) <==> IsSpace(s[0]))
    decreases |s|
  {
    if s == [] then []
    else if IsSpace(s[0]) then [' '] + CollapseSpaces(TrimStart(s))
    else [s[0]] + CollapseSpaces(s[1..])
  }

  /** The collapse leaves no run of two whitespace characters and only plain spaces. */
  lemma {:induction false} CollapseSpacesCollapsed(s: string)
    ensures SpacesCollapsed(CollapseSpaces(s))
    decreases |s|
  {
    if s != [] {
      var tail := if IsSpace(s[0]) then TrimStart(s) else s[1..];
      CollapseSpacesCollapsed(tail);
      var c := CollapseSpaces(tail);
      assert CollapseSpaces(s) == [if IsSpace(s[0]) then ' ' else s[0]] + c;
      assert IsSpace(s[0]) ==> c == [] || !IsSpace(c[0]);
    }
  }

  /** The collapse keeps every non-whitespace character, in order. */
  lemma {:induction false} CollapseSpacesNonSpace(s: string)
    ensures NonSpace(CollapseSpaces(s)) == NonSpace(s)
    decreases |s|
  {
    if s != [] {
      var tail := if IsSpace(s[0]) then TrimStart(s) else s[1..];
      CollapseSpacesNonSpace(tail);
      var r := CollapseSpaces(s);
      assert r[1..] == CollapseSpaces(tail);
    }
  }

  /** The collapse ends in whitespace exactly when its input does. */
  lemma {:induction false} CollapseSpacesLast(s: string)
    requires s != []
    ensures var r := CollapseSpaces(s); IsSpace(r[|r| - 1]) <==> IsSpace(s[|s| - 1])
    decreases |s|
  {
    var x := if IsSpace(s[0]) then ' ' else s[0];
    var tail := if IsSpace(s[0]) then TrimStart(s) else s[1..];
    var c := CollapseSpaces(tail);
    assert CollapseSpaces(s) == [x] + c;
    if tail != [] {
      CollapseSpacesLast(tail);
      LastOfCons(x, c);
      assert tail[|tail| - 1] == s[|s| - 1];
    } else if IsSpace(s[0]) {
      assert AllSpaces(s[..|s|]);
      assert IsSpace(s[..|s|][|s| - 1]);
    }
  }

  /** The last character of a non-empty string is kept by prepending a character. */
  lemma LastOfCons(x: char, c: string)
    requires c != []
    ensures ([x] + c)[|c|] == c[|c| - 1]
  {
  }

  /** `trimStart` removes exactly the leading whitespace run. */
  lemma {:induction false} TrimStartPadded(a: string, b: string)
    requires AllSpaces(a) && (b == [] || !IsSpace(b[0]))
    ensures TrimStart(a + b) == b
    decreases |a|
  {
    if a == [] {
      assert a + b == b;
    } else {
      assert (a + b)[1..] == a[1..] + b;
      TrimStartPadded(a[1..], b);
    }
  }

  /** `trimEnd` removes exactly the trailing whitespace run. */
  lemma {:induction false} TrimEndPadded(a: string, b: string)
    requires (a == [] || !IsSpace(a[|a| - 1])) && AllSpaces(b)
    ensures TrimEnd(a + b) == a
    decreases |b|
  {
    if b == [] {
      assert a + b == a;
    } else {
      var init := b[..|b| - 1];
      assert (a + b)[..|a + b| - 1] == a + init;
      TrimEndPadded(a, init);
    }
  }

  /** `trim` removes exactly the whitespace padding around a text whose ends are not
      whitespace. */
  lemma TrimPadded(a: string, m: string, b: string)
    requires AllSpaces(a) && AllSpaces(b) && m != [] && Trimmed(m)
    ensures Trim(a + m + b) == m
  {
    assert a + m + b == a + (m + b);
    TrimStartPadded(a, m + b);
    TrimEndPadded(m, b);
  }

  /** A non-whitespace character passes through the collapse unchanged. */
  lemma CollapseCons(c: char, s: string)
    requires !IsSpace(c)
    ensures CollapseSpaces([c] + s) == [c] + CollapseSpaces(s)
  {
    assert ([c] + s)[1..] == s;
  }

  /** A non-empty prefix splits into its head and the rest. */
  lemma SplitHead(a: string, b: string)
    requires a != []
    ensures a + b == [a[0]] + (a[1..] + b)
  {
  }

  /** Text without whitespace passes through the collapse unchanged. */
  lemma {:induction false} CollapsePlainPrefix(a: string, b: string)
    requires forall i :: 0 <= i < |a| ==> !IsSpace(a[i])
    ensures CollapseSpaces(a + b) == a + CollapseSpaces(b)
    decreases |a|
  {
    if a != [] {
      var rest := a[1..] + b;
      CollapsePlainPrefix(a[1..], b);
      SplitHead(a, b);
      CollapseCons(a[0], rest);
      SplitHead(a, CollapseSpaces(b));
    } else {
      assert a + b == b;
    }
  }

  /** A whole run of whitespace becomes one plain space. */
  lemma CollapseRun(a: string, b: string)
    requires a != [] && AllSpaces(a) && (b == [] || !IsSpace(b[0]))
    ensures CollapseSpaces(a + b) == [' '] + CollapseSpaces(b)
  {
    assert (a + b)[0] == a[0];
    TrimStartPadded(a, b);
  }

  /** A string already in collapsed form is a fixed point of the collapse. */
  lemma {:induction false} CollapseSpacesFixpoint(s: string)
    requires SpacesCollapsed(s)
    ensures CollapseSpaces(s) == s
  {
    if s != [] {
      var tail := s[1..];
      SpacesCollapsedTail(s);
      CollapseSpacesFixpoint(tail);
      HeadTail(s);
      if IsSpace(s[0]) {
        assert tail == [] || !IsSpace(tail[0]);
        TrimStartPadded([s[0]], tail);
        assert CollapseSpaces(s) == [' '] + CollapseSpaces(tail);
      } else {
        CollapseCons(s[0], tail);
      }
    }
  }

  /** The tail of a collapsed string is collapsed. */
  lemma SpacesCollapsedTail(s: string)
    requires s != [] && SpacesCollapsed(s)
    ensures SpacesCollapsed(s[1..])
  {
    var t := s[1..];
    assert forall i :: 0 <= i < |t| ==> t[i] == s[i + 1];
  }

  lemma HeadTail(s: string)
    requires s != []
    ensures s == [s[0]] + s[1..]
  {
  }

  predicate IsDigit(c: char) {
    '0' <= c <= '9'
  }

  /** The longest prefix of `s` made of decimal digits. */
  function LeadingDigits(s: string): (r: string)
    ensures |r| <= |s| && r == s[..|r|]
    ensures forall i :: 0 <= i < |r| ==> IsDigit(r[i])
    ensures |r| < |s| ==> !IsDigit(s[|r|])
  {
    if s != [] && IsDigit(s[0]) then [s[0]] + LeadingDigits(s[1..]) else []
  }

  function DigitsValue(ds: string): int
    requires forall i :: 0 <= i < |ds| ==> IsDigit(ds[i])
  {
    if ds == [] then 0 else DigitsValue(ds[..|ds| - 1]) * 10 + (ds[|ds| - 1] as int - '0' as int)
  }

  /** `parseInt(s)` in base 10: skip leading whitespace, an optional sign, then the
      leading digits; `None` stands for `NaN` (no digit at all). */
  function ParseInt(s: string): (r: Option<int>)
    ensures r.None? <==> LeadingDigits(SkipSign(TrimStart(s))) == []
  {
    var t := TrimStart(s);
    var ds := LeadingDigits(SkipSign(t));
    if ds == [] then None
    else if t != [] && t[0] == '-' then Some(-DigitsValue(ds))
    else Some(DigitsValue(ds))
  }

  function SkipSign(t: string): string {
    if t != [] && (t[0] == '-' || t[0] == '+') then t[1..] else t
  }

  /** `String(n)` for a natural number: its decimal numeral. */
  function Decimal(n: nat): (r: string)
    ensures r != [] && forall i :: 0 <= i < |r| ==> IsDigit(r[i])
  {
    if n < 10 then ['0' + n as char] else Decimal(n / 10) + ['0' + (n % 10) as char]
  }

  /** Round trip: reading back a decimal numeral gives the number. */
  lemma {:induction false} DecimalValue(n: nat)
    ensures DigitsValue(Decimal(n)) == n
  {
    if n >= 10 {
      var d := Decimal(n);
      assert d[..|d| - 1] == Decimal(n / 10);
      DecimalValue(n / 10);
    }
  }

  /** `parseInt` reads a dimension such as `"300"` or `"300px"` as its leading number:
      a numeral followed by anything that does not start with a digit. */
  lemma ParseIntOfNumeral(n: nat, unit: string)
    requires unit == [] || !IsDigit(unit[0])
    ensures ParseInt(Decimal(n) + unit) == Some(n)
  {
    var d := Decimal(n);
    var s := d + unit;
    assert s[0] == d[0];
    LeadingDigitsOfNumeral(d, unit);
    DecimalValue(n);
    ParseIntOfDigitStart(s);
  }

  /** A text that starts with a digit is read as the value of its leading digits. */
  lemma ParseIntOfDigitStart(s: string)
    requires s != [] && IsDigit(s[0])
    ensures ParseInt(s) == Some(DigitsValue(LeadingDigits(s)))
  {
    assert !IsSpace(s[0]);
    assert TrimStart(s) == s;
    assert SkipSign(s) == s;
  }

  lemma {:induction false} LeadingDigitsOfNumeral(d: string, unit: string)
    requires forall i :: 0 <= i < |d| ==> IsDigit(d[i])
    requires unit == [] || !IsDigit(unit[0])
    ensures LeadingDigits(d + unit) == d
  {
    if d != [] {
      assert (d + unit)[1..] == d[1..] + unit;
      LeadingDigitsOfNumeral(d[1..], unit);
    }
  }
}
