/** The C library text routines the assembler relies on, on NUL-free strings:
    `isspace`, `isalpha`, `isdigit`, `strncmp` against a literal (a prefix test),
    `strchr` for the comment marker, and the `sscanf` conversions `%s`, `%s%n`
    and `%d`. */
module CText {

  import opened Wrappers

  /** `isspace` in the C locale: space, tab, newline, vertical tab, form feed, carriage return. */
  predicate IsSpace(c: char) {
    c == ' ' || ('\t' <= c <= '\r')
  }

  /** `isalpha` in the C locale. */
  predicate IsAlpha(c: char) {
    ('A' <= c <= 'Z') || ('a' <= c <= 'z')
  }

  predicate IsDigit(c: char) {
    '0' <= c <= '9'
  }

  /** Position of the first character of `s` at or after `i` that is not white space. */
  function SkipSpaces(s: string, i: nat): (r: nat)
    requires i <= |s|
    ensures i <= r <= |s|
    ensures forall k :: i <= k < r ==> IsSpace(s[k])
    ensures r < |s| ==> !IsSpace(s[r])
    decreases |s| - i
  {
    if i == |s| || !IsSpace(s[i]) then i else SkipSpaces(s, i + 1)
  }

  /** Position of the first white-space character of `s` at or after `i`, or `|s|`. */
  function WordEnd(s: string, i: nat): (r: nat)
    requires i <= |s|
    ensures i <= r <= |s|
    ensures forall k :: i <= k < r ==> !IsSpace(s[k])
    ensures r < |s| ==> IsSpace(s[r])
    decreases |s| - i
  {
    if i == |s| || IsSpace(s[i]) then i else WordEnd(s, i + 1)
  }

  /** Whether `s` holds anything but white space, i.e. whether `sscanf(s, "%s")` converts. */
  predicate HasWord(s: string) {
    SkipSpaces(s, 0) < |s|
  }

  /** `sscanf(s, "%s%n", w, &n)`: the first white-space-delimited word and the
      number of characters consumed up to its end. */
  function ScanWord(s: string): (r: (string, nat))
    requires HasWord(s)
    ensures 0 < |r.0| <= r.1 <= |s| && s[r.1 - |r.0| .. r.1] == r.0
    ensures forall k :: 0 <= k < r.1 - |r.0| ==> IsSpace(s[k])
    ensures forall k :: 0 <= k < |r.0| ==> !IsSpace(r.0[k])
    ensures r.1 < |s| ==> IsSpace(s[r.1])
  {
    var b := SkipSpaces(s, 0);
    var e := WordEnd(s, b);
    (s[b..e], e)
  }

  /** The first word of `s`, or the empty string when `sscanf(s, "%s")` converts nothing
      (the destination buffer then keeps its initial empty contents). */
  function FirstWord(s: string): (w: string)
    ensures forall k :: 0 <= k < |w| ==> !IsSpace(w[k])
    ensures w == [] <==> !HasWord(s)
  {
    if HasWord(s) then ScanWord(s).0 else []
  }

  /** `strncmp(s, lit, strlen(lit)) == 0` on a NUL-free `s`: `lit` is a prefix of `s`,
      compared character by character as `strncmp` does. */
  predicate StartsWith(s: string, lit: string) {
    |lit| <= |s| && (lit == [] || (s[0] == lit[0] && StartsWith(s[1..], lit[1..])))
  }

  /** The character-by-character comparison agrees with comparing the leading slice. */
  lemma {:induction false} StartsWithSlice(s: string, lit: string)
    ensures StartsWith(s, lit) <==> |lit| <= |s| && s[..|lit|] == lit
  {
    if lit != [] && |lit| <= |s| {
      StartsWithSlice(s[1..], lit[1..]);
      assert s[..|lit|] == [s[0]] + s[1..][..|lit| - 1];
      assert lit == [lit[0]] + lit[1..];
    }
  }

  /** A prefix of a prefix is a prefix. */
  lemma {:induction false} StartsWithTrans(s: string, p: string, q: string)
    requires StartsWith(s, p) && StartsWith(p, q)
    ensures StartsWith(s, q)
  {
    if q != [] {
      StartsWithTrans(s[1..], p[1..], q[1..]);
    }
  }

  /** The text before the first `;`: what is left after `strchr(s, ';')` is overwritten with NUL. */
  function CutComment(s: string): (r: string)
    ensures ';' !in r
    ensures StartsWith(s, r)
    ensures ';' !in s ==> r == s
    ensures |r| < |s| ==> s[|r|] == ';'
  {
    if s == [] then []
    else if s[0] == ';' then []
    else [s[0]] + CutComment(s[1..])
  }

  /** Value of a non-empty run of decimal digits. */
  function DigitsValue(ds: string): (v: nat)
    requires forall k :: 0 <= k < |ds| ==> IsDigit(ds[k])
  {
    if ds == [] then 0
    else
      assert IsDigit(ds[|ds| - 1]);
      DigitsValue(ds[..|ds| - 1]) * 10 + (ds[|ds| - 1] as int - '0' as int)
  }

  /** Position of the end of the run of digits starting at `i`. */
  function DigitsEnd(s: string, i: nat): (r: nat)
    requires i <= |s|
    ensures i <= r <= |s|
    ensures forall k :: i <= k < r ==> IsDigit(s[k])
    ensures r < |s| ==> !IsDigit(s[r])
    decreases |s| - i
  {
    if i == |s| || !IsDigit(s[i]) then i else DigitsEnd(s, i + 1)
  }

  /** `sscanf(s, "%d", &v)`: skip white space, an optional sign, then the longest run of
      digits; converts only when at least one digit follows. */
  function ScanInt(s: string): (r: Option<int>)
  {
    var b := SkipSpaces(s, 0);
    var neg := b < |s| && s[b] == '-';
    var d := if b < |s| && (s[b] == '-' || s[b] == '+') then b + 1 else b;
    var e := DigitsEnd(s, d);
    if e == d then None
    else
      var m: int := DigitsValue(s[d..e]);
      Some(if neg then -m else m)
  }

  /** Decimal digits of a natural number, most significant first (what `%d` prints). */
  function Digits(n: nat): (ds: string)
    ensures |ds| > 0
    ensures forall k :: 0 <= k < |ds| ==> IsDigit(ds[k])
  {
    var last := ((n % 10) + '0' as int) as char;
    if n < 10 then [last] else Digits(n / 10) + [last]
  }

  /** Decimal text of an integer, with a leading minus sign when negative. */
  function Decimal(n: int): (s: string)
  {
    if n < 0 then "-" + Digits(-n) else Digits(n)
  }

  /** Reading back the digits of `n` gives `n`. */
  lemma {:induction false} DigitsValueOfDigits(n: nat)
    ensures DigitsValue(Digits(n)) == n
  {
    var ds := Digits(n);
    if n >= 10 {
      DigitsValueOfDigits(n / 10);
      assert ds[..|ds| - 1] == Digits(n / 10);
    }
  }

  /** `%d` reads back what `%d` prints: when the decimal text of `n` stands at position
      `b` of `s`, preceded only by white space and followed by white space or the end,
      scanning `s` gives `n`. */
  lemma ScanIntOfDecimal(n: int, s: string, b: nat)
    requires b + |Decimal(n)| <= |s| && s[b..b + |Decimal(n)|] == Decimal(n)
    requires forall k :: 0 <= k < b ==> IsSpace(s[k])
    requires b + |Decimal(n)| < |s| ==> IsSpace(s[b + |Decimal(n)|])
    ensures ScanInt(s) == Some(n)
  {
    var m: nat := if n < 0 then -n else n;
    var ds := Digits(m);
    var t := Decimal(n);
    var d := if n < 0 then b + 1 else b;
    var e := b + |t|;
    assert t[d - b..] == ds;
    assert s[d..e] == ds by {
      assert s[d..e] == s[b..e][d - b..];
    }
    assert s[b] == t[0];
    assert s[b] == '-' <==> n < 0;
    SkipToEnd(s, 0, b);
    DigitsAt(s, d, e);
    DigitsEndAt(s, d, e);
    ScanIntWhen(s, b, d, e);
    DigitsValueOfDigits(m);
  }

  /** The characters of a slice that holds digits are digits. */
  lemma DigitsAt(s: string, d: nat, e: nat)
    requires d <= e <= |s| && forall k :: 0 <= k < e - d ==> IsDigit(s[d..e][k])
    ensures forall k :: d <= k < e ==> IsDigit(s[k])
  {
    forall k | d <= k < e
      ensures IsDigit(s[k])
    {
      assert s[k] == s[d..e][k - d];
    }
  }

  /** What `%d` returns once the start, the sign and the end of the digit run are known. */
  lemma ScanIntWhen(s: string, b: nat, d: nat, e: nat)
    requires b < |s| && SkipSpaces(s, 0) == b
    requires d == if s[b] == '-' || s[b] == '+' then b + 1 else b
    requires d < e <= |s| && DigitsEnd(s, d) == e
    ensures ScanInt(s) == Some(if s[b] == '-' then -(DigitsValue(s[d..e]) as int) else DigitsValue(s[d..e]))
  {
  }

  /** Skipping white space stops at the first non-space character, or at the end. */
  lemma SkipToEnd(s: string, i: nat, j: nat)
    requires i <= j <= |s|
    requires forall k :: i <= k < j ==> IsSpace(s[k])
    requires j < |s| ==> !IsSpace(s[j])
    ensures SkipSpaces(s, i) == j
    decreases j - i
  {
    if i < j { SkipToEnd(s, i + 1, j); }
  }

  /** The word starting at `i` ends at `j` when `s[i..j]` holds no white space and `s[j]`,
      if any, is white space. */
  lemma WordEndAt(s: string, i: nat, j: nat)
    requires i <= j <= |s|
    requires forall k :: i <= k < j ==> !IsSpace(s[k])
    requires j < |s| ==> IsSpace(s[j])
    ensures WordEnd(s, i) == j
    decreases j - i
  {
    if i < j { WordEndAt(s, i + 1, j); }
  }

  /** The digit run starting at `i` ends at `j` when `s[i..j]` are digits and `s[j]` is not one. */
  lemma DigitsEndAt(s: string, i: nat, j: nat)
    requires i <= j <= |s|
    requires forall k :: i <= k < j ==> IsDigit(s[k])
    requires j < |s| ==> !IsDigit(s[j])
    ensures DigitsEnd(s, i) == j
    decreases j - i
  {
    if i < j { DigitsEndAt(s, i + 1, j); }
  }

  /** Cutting a string anywhere after its first word leaves the same first word, ending
      at the same position. */
  lemma ScanWordPrefix(s: string, p: string, len: nat)
    requires HasWord(s) && ScanWord(s).1 <= len <= |s| && p == s[..len]
    ensures HasWord(p) && ScanWord(p) == ScanWord(s)
  {
    var (w, n) := ScanWord(s);
    var b := SkipSpaces(s, 0);
    assert forall k :: 0 <= k < len ==> p[k] == s[k];
    SkipToEnd(p, 0, b);
    WordEndAt(p, b, n);
    assert p[b..n] == s[b..n];
  }

  /** Text up to a position followed by that text's comment cut is a prefix of the whole. */
  lemma CommentCutPrefix(s: string, n: nat)
    requires n <= |s|
    ensures n + |CutComment(s[n..])| <= |s|
    ensures s[..n] + CutComment(s[n..]) == s[..n + |CutComment(s[n..])|]
  {
    var c := CutComment(s[n..]);
    StartsWithSlice(s[n..], c);
    assert s[n..][..|c|] == c;
    assert s[..n] + s[n..][..|c|] == s[..n + |c|];
  }

  /** A character absent from a string is absent from each of its prefixes. */
  lemma NotInPrefix(s: string, len: nat, ch: char)
    requires len <= |s| && ch !in s
    ensures ch !in s[..len]
  {
    assert forall k :: 0 <= k < len ==> s[..len][k] == s[k];
  }

}
