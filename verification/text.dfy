/**
 * The JavaScript string operations the application relies on, stated over
 * Dafny strings (sequences of Unicode scalar values): `toLowerCase` (ASCII
 * letters only), `includes`, `join`, `Number.prototype.toString` for the
 * decimal user ids, `trim`, and `length` in UTF-16 code units.
 */
module Text {

  // ---------------------------------------------------------------------------
  // Lower-casing

  /** `toLowerCase` on one character; only ASCII letters are mapped. */
  function LowerChar(c: char): (d: char)
    ensures !('A' <= d <= 'Z')
    ensures !('A' <= c <= 'Z') ==> d == c
  {
    if 'A' <= c <= 'Z' then (c as int + 32) as char else c
  }

  /** `toLowerCase`, character by character. */
  function Lower(s: string): (r: string)
    ensures |r| == |s|
    ensures forall i :: 0 <= i < |s| ==> r[i] == LowerChar(s[i])
  {
    seq(|s|, i requires 0 <= i < |s| => LowerChar(s[i]))
  }

  predicate IsLower(s: string) {
    forall i :: 0 <= i < |s| ==> !('A' <= s[i] <= 'Z')
  }

  /** Lower-casing yields lower-case text and leaves lower-case text alone. */
  lemma LowerIsLower(s: string)
    ensures IsLower(Lower(s))
    ensures IsLower(s) ==> Lower(s) == s
  {
  }

  lemma LowerIdempotent(s: string)
    ensures Lower(Lower(s)) == Lower(s)
  {
    LowerIsLower(s);
    LowerIsLower(Lower(s));
  }

  // ---------------------------------------------------------------------------
  // Substrings and prefixes

  /** `part` occurs in `text` starting at index `i`. */
  predicate OccursAt(text: string, part: string, i: nat) {
    i + |part| <= |text| && text[i..i + |part|] == part
  }

  /** `text.includes(part)`: `part` occurs in `text` at some position. */
  predicate Contains(text: string, part: string) {
    exists i | 0 <= i <= |text| :: OccursAt(text, part, i)
  }

  /** The empty string is contained in every string, as with `includes("")`. */
  lemma ContainsEmpty(text: string)
    ensures Contains(text, "")
  {
    assert OccursAt(text, "", 0);
  }

  /** A string contains itself. */
  lemma ContainsSelf(text: string)
    ensures Contains(text, text)
  {
    assert OccursAt(text, text, 0);
  }

  /** Containment survives growing the text on either side. */
  lemma ContainsInContext(before: string, text: string, after: string, part: string)
    requires Contains(text, part)
    ensures Contains(before + text + after, part)
  {
    var i :| 0 <= i <= |text| && OccursAt(text, part, i);
    var whole := before + text + after;
    assert whole[|before| + i..|before| + i + |part|] == text[i..i + |part|];
    assert OccursAt(whole, part, |before| + i);
  }

  predicate StartsWith(s: string, prefix: string) {
    |prefix| <= |s| && s[..|prefix|] == prefix
  }

  predicate EndsWith(s: string, suffix: string) {
    |suffix| <= |s| && s[|s| - |suffix|..] == suffix
  }

  // ---------------------------------------------------------------------------
  // Array.prototype.join

  /**
   * `parts.join(sep)`: the parts in order with `sep` between neighbours, so
   * the text starts with the first part and a separator, ends with the last
   * part, and contains every part.
   */
  function Join(parts: seq<string>, sep: string): (r: string)
    ensures |parts| == 0 ==> r == ""
    ensures |parts| >= 1 ==> StartsWith(r, parts[0])
    ensures |parts| >= 2 ==> StartsWith(r, parts[0] + sep)
    ensures |parts| >= 1 ==> EndsWith(r, parts[|parts| - 1])
    ensures forall i {:trigger Contains(r, parts[i])} :: 0 <= i < |parts| ==> Contains(r, parts[i])
    decreases |parts|
  {
    if |parts| == 0 then ""
    else if |parts| == 1 then
      ContainsSelf(parts[0]);
      assert parts[0] == "" + parts[0] + "";
      parts[0]
    else
      var rest := Join(parts[1..], sep);
      JoinStepContains(parts, sep, rest);
      assert parts[1..][|parts[1..]| - 1] == parts[|parts| - 1];
      JoinStepEnds(parts[0], sep, rest, parts[|parts| - 1]);
      parts[0] + sep + rest
  }

  /** When `rest` contains every later part, `parts[0] + sep + rest` contains every part. */
  lemma JoinStepContains(parts: seq<string>, sep: string, rest: string)
    requires |parts| >= 2
    requires forall i {:trigger parts[1..][i]} :: 0 <= i < |parts| - 1 ==> Contains(rest, parts[1..][i])
    ensures forall i {:trigger Contains(parts[0] + sep + rest, parts[i])} :: 0 <= i < |parts| ==>
              Contains(parts[0] + sep + rest, parts[i])
  {
    forall i | 0 <= i < |parts|
      ensures Contains(parts[0] + sep + rest, parts[i])
    {
      if i == 0 {
        ContainsSelf(parts[0]);
        ContainsInContext("", parts[0], sep + rest, parts[0]);
        assert "" + parts[0] + (sep + rest) == parts[0] + sep + rest;
      } else {
        assert parts[i] == parts[1..][i - 1];
        ContainsInContext(parts[0] + sep, rest, "", parts[i]);
        assert parts[0] + sep + rest + "" == parts[0] + sep + rest;
      }
    }
  }

  /** The text `first + sep + rest` starts with `first + sep` and ends as `rest` does. */
  lemma JoinStepEnds(first: string, sep: string, rest: string, last: string)
    requires EndsWith(rest, last)
    ensures StartsWith(first + sep + rest, first)
    ensures StartsWith(first + sep + rest, first + sep)
    ensures EndsWith(first + sep + rest, last)
  {
    var whole := first + sep + rest;
    assert whole[..|first|] == first;
    assert whole[..|first + sep|] == first + sep;
    assert whole[|whole| - |last|..] == rest[|rest| - |last|..];
  }

  /** The summed length of some texts. */
  function TotalLength(parts: seq<string>): nat {
    if |parts| == 0 then 0 else |parts[0]| + TotalLength(parts[1..])
  }

  /** A joined list is as long as its parts plus one separator between each two neighbours. */
  lemma {:induction false} JoinLength(parts: seq<string>, sep: string)
    requires |parts| >= 1
    ensures |Join(parts, sep)| == TotalLength(parts) + (|parts| - 1) * |sep|
    decreases |parts|
  {
    var k := |parts| - 1;
    if k == 0 {
      assert TotalLength(parts) == |parts[0]| + TotalLength(parts[1..]);
      assert |parts[1..]| == 0;
    } else {
      JoinLength(parts[1..], sep);
      assert |Join(parts, sep)| == |parts[0]| + |sep| + |Join(parts[1..], sep)|;
      assert TotalLength(parts) == |parts[0]| + TotalLength(parts[1..]);
      MulStep(k, |sep|);
    }
  }

  lemma MulStep(k: nat, n: nat)
    requires k >= 1
    ensures k * n == (k - 1) * n + n
  {
  }

  /** Where the i-th part starts in a joined text: after each earlier part and the separator that follows it. */
  function PartStart(parts: seq<string>, sep: string, i: nat): nat
    requires i <= |parts|
    decreases i
  {
    if i == 0 then 0 else PartStart(parts, sep, i - 1) + |parts[i - 1]| + |sep|
  }

  /** Dropping the first part shifts every later start back by that part and one separator. */
  lemma {:induction false} PartStartTail(parts: seq<string>, sep: string, i: nat)
    requires 1 <= i <= |parts|
    ensures PartStart(parts, sep, i) == |parts[0]| + |sep| + PartStart(parts[1..], sep, i - 1)
    decreases i
  {
    if i > 1 {
      PartStartTail(parts, sep, i - 1);
      assert parts[1..][i - 2] == parts[i - 1];
    }
  }

  /** A text occurs at the very start of any text it begins. */
  lemma OccursAtStart(x: string, y: string)
    ensures OccursAt(x + y, x, 0)
  {
    assert (x + y)[..|x|] == x;
  }

  /** An occurrence in `y` is an occurrence in `x + y`, shifted by `x`. */
  lemma OccursAfter(x: string, y: string, part: string, a: nat)
    requires OccursAt(y, part, a)
    ensures OccursAt(x + y, part, |x| + a)
  {
    assert (x + y)[|x| + a .. |x| + a + |part|] == y[a .. a + |part|];
  }

  /** A joined list of two or more parts is the first part, a separator, and the rest joined. */
  lemma JoinUnfold(parts: seq<string>, sep: string)
    requires |parts| >= 2
    ensures Join(parts, sep) == parts[0] + (sep + Join(parts[1..], sep))
  {
    assert parts[0] + sep + Join(parts[1..], sep) == parts[0] + (sep + Join(parts[1..], sep));
  }

  /** The joined text ends right after the last part. */
  lemma {:induction false} JoinEnd(parts: seq<string>, sep: string)
    requires |parts| >= 1
    ensures |Join(parts, sep)| == PartStart(parts, sep, |parts| - 1) + |parts[|parts| - 1]|
    decreases |parts|
  {
    if |parts| >= 2 {
      JoinEnd(parts[1..], sep);
      JoinUnfold(parts, sep);
      PartStartTail(parts, sep, |parts| - 1);
    }
  }

  /** A joined list begins with its first part. */
  lemma JoinFirstAt(parts: seq<string>, sep: string)
    requires |parts| >= 1
    ensures OccursAt(Join(parts, sep), parts[0], 0)
  {
    if |parts| == 1 {
      OccursAtStart(parts[0], "");
      assert parts[0] + "" == parts[0];
    } else {
      JoinUnfold(parts, sep);
      OccursAtStart(parts[0], sep + Join(parts[1..], sep));
    }
  }

  /** The first part of a joined list of two or more is followed by the separator. */
  lemma JoinFirstSeparatorAt(parts: seq<string>, sep: string)
    requires |parts| >= 2
    ensures OccursAt(Join(parts, sep), sep, |parts[0]|)
  {
    JoinUnfold(parts, sep);
    OccursAtStart(sep, Join(parts[1..], sep));
    OccursAfter(parts[0], sep + Join(parts[1..], sep), sep, 0);
  }

  /** What occurs in the join of the later parts occurs in the whole join, after the first part and a separator. */
  lemma JoinShift(parts: seq<string>, sep: string, part: string, p: nat)
    requires |parts| >= 2 && OccursAt(Join(parts[1..], sep), part, p)
    ensures OccursAt(Join(parts, sep), part, |parts[0]| + |sep| + p)
  {
    JoinUnfold(parts, sep);
    OccursAfter(sep, Join(parts[1..], sep), part, p);
    OccursAfter(parts[0], sep + Join(parts[1..], sep), part, |sep| + p);
  }

  /** The i-th part of a joined list sits at `PartStart(parts, sep, i)`. */
  lemma {:induction false} JoinPartAt(parts: seq<string>, sep: string, i: nat)
    requires i < |parts|
    ensures OccursAt(Join(parts, sep), parts[i], PartStart(parts, sep, i))
    decreases |parts|
  {
    if i == 0 {
      JoinFirstAt(parts, sep);
    } else {
      JoinPartAt(parts[1..], sep, i - 1);
      PartStartTail(parts, sep, i);
      assert parts[1..][i - 1] == parts[i];
      JoinShift(parts, sep, parts[i], PartStart(parts[1..], sep, i - 1));
    }
  }

  /** Right after the i-th part of a joined list, up to the next part, lies the separator. */
  lemma {:induction false} JoinSeparatorAt(parts: seq<string>, sep: string, i: nat)
    requires i + 1 < |parts|
    ensures OccursAt(Join(parts, sep), sep, PartStart(parts, sep, i) + |parts[i]|)
    ensures PartStart(parts, sep, i) + |parts[i]| + |sep| == PartStart(parts, sep, i + 1)
    decreases |parts|
  {
    if i == 0 {
      JoinFirstSeparatorAt(parts, sep);
    } else {
      JoinSeparatorAt(parts[1..], sep, i - 1);
      PartStartTail(parts, sep, i);
      assert parts[1..][i - 1] == parts[i];
      JoinShift(parts, sep, sep, PartStart(parts[1..], sep, i - 1) + |parts[i]|);
    }
  }


  /** Every part of a joined list occurs in any text the joined list is embedded in. */
  lemma JoinedPartsInContext(before: string, parts: seq<string>, sep: string, after: string)
    ensures forall i :: 0 <= i < |parts| ==> Contains(before + Join(parts, sep) + after, parts[i])
  {
    forall i | 0 <= i < |parts| ensures Contains(before + Join(parts, sep) + after, parts[i]) {
      ContainsInContext(before, Join(parts, sep), after, parts[i]);
    }
  }

  /** A text starts with whatever it is built from on the left. */
  lemma StartsWithLeft(left: string, right: string)
    ensures StartsWith(left + right, left)
  {
    assert (left + right)[..|left|] == left;
  }

  /** Every part of a joined list occurs in a text that ends with the joined list. */
  lemma JoinedPartsAtEnd(before: string, parts: seq<string>, sep: string)
    ensures forall i :: 0 <= i < |parts| ==> Contains(before + Join(parts, sep), parts[i])
  {
    JoinedPartsInContext(before, parts, sep, "");
    assert before + Join(parts, sep) + "" == before + Join(parts, sep);
  }

  lemma Regroup(a: string, b: string, c: string, d: string)
    ensures a + b + c + d == (a + b) + (c + d)
  {
  }

  /**
   * A text made of an opening, comma-joined parts, an introduction and
   * concatenated lines starts with the opening and the joined parts, and
   * contains every part and every line.
   */
  lemma TemplateContents(opening: string, parts: seq<string>, intro: string, lines: seq<string>)
    ensures var text := opening + Join(parts, ", ") + intro + Join(lines, "");
            && StartsWith(text, opening + Join(parts, ", "))
            && (forall i :: 0 <= i < |parts| ==> Contains(text, parts[i]))
            && (forall i :: 0 <= i < |lines| ==> Contains(text, lines[i]))
  {
    var joined := Join(parts, ", ");
    var rest := intro + Join(lines, "");
    Regroup(opening, joined, intro, Join(lines, ""));
    StartsWithLeft(opening + joined, rest);
    JoinedPartsInContext(opening, parts, ", ", rest);
    JoinedPartsAtEnd(opening + joined + intro, lines, "");
  }

  // ---------------------------------------------------------------------------
  // Decimal representation of the user ids, `(n).toString()`

  predicate IsDigit(c: char) {
    '0' <= c <= '9'
  }

  function DigitChar(d: nat): (c: char)
    requires d < 10
    ensures IsDigit(c) && c as int - '0' as int == d
  {
    ('0' as int + d) as char
  }

  /** `n.toString()` for a non-negative integer: decimal, no leading zeros. */
  function NatToString(n: nat): (s: string)
    ensures 1 <= |s|
    ensures forall i :: 0 <= i < |s| ==> IsDigit(s[i])
    ensures n < 10 <==> |s| == 1
    decreases n
  {
    if n < 10 then [DigitChar(n)] else NatToString(n / 10) + [DigitChar(n % 10)]
  }

  /** Reads a string of decimal digits back as a number. */
  function ParseDecimal(s: string): nat
    requires forall i :: 0 <= i < |s| ==> IsDigit(s[i])
    decreases |s|
  {
    if s == [] then 0
    else
      assert IsDigit(s[|s| - 1]);
      ParseDecimal(s[..|s| - 1]) * 10 + (s[|s| - 1] as int - '0' as int)
  }

  /** Parsing undoes `NatToString`. */
  lemma {:induction false} ParseNatToString(n: nat)
    ensures ParseDecimal(NatToString(n)) == n
    decreases n
  {
    var s := NatToString(n);
    if n >= 10 {
      ParseNatToString(n / 10);
      assert s[..|s| - 1] == NatToString(n / 10);
    }
  }

  /** Distinct numbers have distinct decimal representations. */
  lemma NatToStringInjective(a: nat, b: nat)
    ensures NatToString(a) == NatToString(b) ==> a == b
  {
    ParseNatToString(a);
    ParseNatToString(b);
  }

  // ---------------------------------------------------------------------------
  // String.prototype.length counts UTF-16 code units

  /** Number of UTF-16 code units of `s`: characters above U+FFFF take two. */
  function Utf16Length(s: string): (n: nat)
    ensures |s| <= n <= 2 * |s|
    ensures (forall i :: 0 <= i < |s| ==> s[i] as int <= 0xFFFF) ==> n == |s|
    decreases |s|
  {
    if s == [] then 0
    else (if s[0] as int > 0xFFFF then 2 else 1) + Utf16Length(s[1..])
  }

  // ---------------------------------------------------------------------------
  // String.prototype.trim

  /**
   * The characters `trim` removes: the ECMAScript WhiteSpace code points
   * (tab, vertical tab, form feed, space, no-break space, the byte order mark
   * and the other Unicode space separators) and the LineTerminator code
   * points (line feed, carriage return, line and paragraph separators).
   */
  predicate IsJsWhitespace(c: char) {
    var k := c as int;
    k == 0x09 || k == 0x0A || k == 0x0B || k == 0x0C || k == 0x0D || k == 0x20
    || k == 0xA0 || k == 0x1680 || (0x2000 <= k <= 0x200A) || k == 0x2028
    || k == 0x2029 || k == 0x202F || k == 0x205F || k == 0x3000 || k == 0xFEFF
  }

  predicate IsBlank(s: string) {
    forall i :: 0 <= i < |s| ==> IsJsWhitespace(s[i])
  }

  function TrimStart(s: string): (r: string)
    ensures |r| <= |s| && r == s[|s| - |r|..]
    ensures r == [] || !IsJsWhitespace(r[0])
    decreases |s|
  {
    if s != [] && IsJsWhitespace(s[0]) then TrimStart(s[1..]) else s
  }

  function TrimEnd(s: string): (r: string)
    ensures |r| <= |s| && r == s[..|r|]
    ensures r == [] || !IsJsWhitespace(r[|r| - 1])
    decreases |s|
  {
    if s != [] && IsJsWhitespace(s[|s| - 1]) then TrimEnd(s[..|s| - 1]) else s
  }

  /** `s.trim()`: leading and trailing whitespace removed. */
  function Trim(s: string): string {
    TrimEnd(TrimStart(s))
  }

  /** A non-empty string is blank exactly when its first character is whitespace and the rest is blank. */
  lemma BlankFront(s: string)
    requires s != []
    ensures IsBlank(s) <==> IsJsWhitespace(s[0]) && IsBlank(s[1..])
  {
    if IsJsWhitespace(s[0]) && IsBlank(s[1..]) {
      forall i | 0 < i < |s| ensures IsJsWhitespace(s[i]) {
        assert s[i] == s[1..][i - 1];
      }
    }
  }

  /** A non-empty string is blank exactly when its last character is whitespace and the rest is blank. */
  lemma BlankBack(s: string)
    requires s != []
    ensures IsBlank(s) <==> IsJsWhitespace(s[|s| - 1]) && IsBlank(s[..|s| - 1])
  {
    if IsJsWhitespace(s[|s| - 1]) && IsBlank(s[..|s| - 1]) {
      forall i | 0 <= i < |s| - 1 ensures IsJsWhitespace(s[i]) {
        assert s[i] == s[..|s| - 1][i];
      }
    }
  }

  lemma {:induction false} TrimStartEmpty(s: string)
    ensures TrimStart(s) == [] <==> IsBlank(s)
    decreases |s|
  {
    if s != [] {
      BlankFront(s);
      if IsJsWhitespace(s[0]) {
        TrimStartEmpty(s[1..]);
      }
    }
  }

  lemma {:induction false} TrimEndEmpty(s: string)
    ensures TrimEnd(s) == [] <==> IsBlank(s)
    decreases |s|
  {
    if s != [] {
      BlankBack(s);
      if IsJsWhitespace(s[|s| - 1]) {
        TrimEndEmpty(s[..|s| - 1]);
      }
    }
  }

  /** A query is falsy after trimming exactly when it is all whitespace. */
  lemma TrimEmptyIffBlank(s: string)
    ensures Trim(s) == [] <==> IsBlank(s)
  {
    TrimStartEmpty(s);
    var t := TrimStart(s);
    TrimEndEmpty(t);
    assert IsBlank(t) ==> t == [];
  }
}
