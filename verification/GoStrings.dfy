/**
 The functions of Go's `strings` and `strconv` packages that the proxy uses. A string is a sequence of bytes;
 case mapping and white space are those of ASCII.
 */
module GoStrings {

  predicate IsCR(c: char) { c == '\r' }

  predicate IsLF(c: char) { c == '\n' }

  predicate IsCRLF(c: char) { c == '\r' || c == '\n' }

  predicate IsLetter(c: char) { 'a' <= c <= 'z' || 'A' <= c <= 'Z' }

  predicate IsDigit(c: char) { '0' <= c <= '9' }

  predicate IsSpace(c: char) { c == ' ' || 9 as char <= c <= 13 as char }

  function UpperChar(c: char): char {
    if 'a' <= c <= 'z' then c - 32 as char else c
  }

  /** strings.ToUpper */
  function ToUpper(s: string): string {
    seq(|s|, i requires 0 <= i < |s| => UpperChar(s[i]))
  }

  function TrimLeft(s: string, p: char -> bool): (r: string)
    ensures r == [] || !p(r[0])
  {
    if s == [] then [] else if p(s[0]) then TrimLeft(s[1..], p) else s
  }

  function TrimRight(s: string, p: char -> bool): (r: string)
    ensures r <= s
    ensures r == [] || !p(r[|r| - 1])
    ensures forall i :: |r| <= i < |s| ==> p(s[i])
  {
    if s == [] then [] else if p(s[|s| - 1]) then TrimRight(s[..|s| - 1], p) else s
  }

  /** strings.Trim with a cut set given as a predicate. */
  function Trim(s: string, p: char -> bool): string {
    TrimRight(TrimLeft(s, p), p)
  }

  /** strings.Trim(s, "\r\n") */
  function TrimCRLF(s: string): string {
    Trim(s, IsCRLF)
  }

  /** strings.Replace(s, ..., "", -1) for every byte that satisfies p. */
  function Without(s: string, p: char -> bool): (r: string)
    ensures forall i :: 0 <= i < |r| ==> !p(r[i])
  {
    if s == [] then [] else (if p(s[0]) then [] else [s[0]]) + Without(s[1..], p)
  }

  /** strings.Count of a single byte */
  function Count(s: string, c: char): nat {
    if s == [] then 0 else (if s[0] == c then 1 else 0) + Count(s[1..], c)
  }

  /** strings.ReplaceAll of one byte by another */
  function Replace(s: string, old_: char, new_: char): (r: string)
    ensures |r| == |s| && forall i :: 0 <= i < |s| ==> r[i] == if s[i] == old_ then new_ else s[i]
  {
    seq(|s|, i requires 0 <= i < |s| => if s[i] == old_ then new_ else s[i])
  }

  /** strings.Contains */
  predicate Contains(s: string, sub: string) {
    sub <= s || (s != [] && Contains(s[1..], sub))
  }

  /** strings.Index of a single byte, -1 when there is none */
  function Index(s: string, c: char): (i: int)
    ensures -1 <= i < |s|
    ensures i >= 0 ==> s[i] == c && forall k :: 0 <= k < i ==> s[k] != c
    ensures i == -1 ==> forall k :: 0 <= k < |s| ==> s[k] != c
  {
    if s == [] then -1
    else if s[0] == c then 0
    else
      var r := Index(s[1..], c);
      if r == -1 then -1 else r + 1
  }

  /** strings.LastIndex of a single byte */
  function LastIndex(s: string, c: char): (i: int)
    ensures -1 <= i < |s|
    ensures i >= 0 ==> s[i] == c && forall k :: i < k < |s| ==> s[k] != c
    ensures i == -1 ==> forall k :: 0 <= k < |s| ==> s[k] != c
  {
    if s == [] then -1
    else if s[|s| - 1] == c then |s| - 1
    else LastIndex(s[..|s| - 1], c)
  }

  /** strings.SplitN(s, c, 2)[0] */
  function FirstField(s: string, c: char): (r: string)
    ensures r <= s && c !in r
    ensures |r| < |s| ==> s[|r|] == c
  {
    var i := Index(s, c);
    if i == -1 then s else s[..i]
  }

  /** strings.SplitN(s, sep, 2)[0] for a separator of several bytes */
  function FirstPart(s: string, sep: string): string {
    if s == [] || sep <= s then [] else [s[0]] + FirstPart(s[1..], sep)
  }

  /** string(c) for a byte outside ASCII: the two bytes that encode the code point c in UTF-8. */
  function Encoded(c: char): string
    requires 128 as char <= c < 256 as char
  {
    [(0xC0 + c as int / 64) as char, (0x80 + c as int % 64) as char]
  }

  /** strings.Split on a single byte */
  function Split(s: string, c: char): (r: seq<string>)
    ensures |r| > 0
  {
    if s == [] then [""]
    else
      var r := Split(s[1..], c);
      if s[0] == c then [""] + r else [[s[0]] + r[0]] + r[1..]
  }

  /** strings.Join with a single byte */
  function Join(fields: seq<string>, c: char): string {
    if fields == [] then ""
    else if |fields| == 1 then fields[0]
    else fields[0] + [c] + Join(fields[1..], c)
  }

  /** A line as ReadString('\n') returns it. */
  predicate ReadLine(line: string) {
    |line| > 0 && line[|line| - 1] == '\n' && forall i :: 0 <= i < |line| - 1 ==> line[i] != '\n'
  }

  // ---------------------------------------------------------------- decimal numbers

  const MAX_INT64 := 0x7FFF_FFFF_FFFF_FFFF
  const MIN_INT64 := -0x8000_0000_0000_0000

  /** Two's complement wrap-around of a 64-bit int. */
  function Wrap64(x: int): int {
    (x + 0x8000_0000_0000_0000) % 0x1_0000_0000_0000_0000 - 0x8000_0000_0000_0000
  }

  predicate AllDigits(s: string) {
    forall i :: 0 <= i < |s| ==> IsDigit(s[i])
  }

  function Value(s: string): nat
    requires AllDigits(s)
  {
    if s == [] then 0 else 10 * Value(s[..|s| - 1]) + (s[|s| - 1] as nat - '0' as nat)
  }

  function DigitOf(n: nat): char
    requires n < 10
  {
    '0' + n as char
  }

  /** strconv.Itoa of a non-negative number */
  function Itoa(n: nat): (s: string)
    ensures |s| > 0 && AllDigits(s) && Value(s) == n
    ensures n > 0 ==> s[0] != '0'
  {
    if n < 10 then [DigitOf(n)]
    else
      var s := Itoa(n / 10) + [DigitOf(n % 10)];
      assert s[..|s| - 1] == Itoa(n / 10);
      s
  }

  /**
   strconv.Atoi: the value and whether there was no error. A syntax error yields 0 and a number outside the
   64-bit range the nearest representable one, which callers that drop the error go on to use.
   */
  function Atoi(s: string): (int, bool) {
    var negative := |s| > 0 && s[0] == '-';
    var digits := if |s| > 0 && (s[0] == '-' || s[0] == '+') then s[1..] else s;
    if digits == [] || !AllDigits(digits) then (0, false)
    else if negative then
      if Value(digits) > -MIN_INT64 then (MIN_INT64, false) else (-(Value(digits) as int), true)
    else
      if Value(digits) > MAX_INT64 then (MAX_INT64, false) else (Value(digits), true)
  }

  // ---------------------------------------------------------------- laws

  lemma AtoiItoa(n: nat)
    requires n <= MAX_INT64
    ensures Atoi(Itoa(n)) == (n, true)
  {
    assert IsDigit(Itoa(n)[0]);
  }

  lemma {:induction false} TrimLeftIsSuffix(s: string, p: char -> bool)
    ensures |TrimLeft(s, p)| <= |s| && TrimLeft(s, p) == s[|s| - |TrimLeft(s, p)|..]
    ensures forall i :: 0 <= i < |s| - |TrimLeft(s, p)| ==> p(s[i])
  {
    if s != [] && p(s[0]) {
      TrimLeftIsSuffix(s[1..], p);
    }
  }

  lemma {:induction false} ContainsNeeds(s: string, sub: string, c: char)
    requires c in sub && c !in s
    ensures !Contains(s, sub)
  {
    if s != [] {
      ContainsNeeds(s[1..], sub, c);
    }
  }

  lemma IndexIs(s: string, c: char, i: nat)
    requires i < |s| && s[i] == c && forall k :: 0 <= k < i ==> s[k] != c
    ensures Index(s, c) == i
  {
  }

  lemma LastIndexIs(s: string, c: char, i: nat)
    requires i < |s| && s[i] == c && forall k :: i < k < |s| ==> s[k] != c
    ensures LastIndex(s, c) == i
  {
  }

  /** Splitting at the separators inside the parts is splitting the parts. */
  lemma {:induction false} SplitAppend(a: string, c: char, b: string)
    ensures Split(a + [c] + b, c) == Split(a, c) + Split(b, c)
  {
    var s := a + [c] + b;
    if a == [] {
      assert s[1..] == b;
    } else {
      assert s[1..] == a[1..] + [c] + b;
      SplitAppend(a[1..], c, b);
    }
  }

  lemma {:induction false} SplitWhole(s: string, c: char)
    requires c !in s
    ensures Split(s, c) == [s]
  {
    if s != [] {
      SplitWhole(s[1..], c);
      assert s[0] in s && [s[0]] + s[1..] == s;
    }
  }

  lemma {:induction false} FieldsAreFree(s: string, c: char, f: string)
    requires f in Split(s, c)
    ensures c !in f && forall x :: x in f ==> x in s
  {
    if s != [] {
      var r := Split(s[1..], c);
      FieldsAreFree(s[1..], c, r[0]);
      if f in r {
        FieldsAreFree(s[1..], c, f);
      }
    }
  }

  lemma {:induction false} JoinSplit(s: string, c: char)
    ensures Join(Split(s, c), c) == s
  {
    if s != [] {
      var r := Split(s[1..], c);
      JoinSplit(s[1..], c);
      if s[0] == c {
        assert ([""] + r)[1..] == r;
      } else {
        assert ([[s[0]] + r[0]] + r[1..])[1..] == r[1..];
      }
    }
  }

  lemma {:induction false} SplitJoin(fields: seq<string>, c: char)
    requires |fields| > 0 && forall i :: 0 <= i < |fields| ==> c !in fields[i]
    ensures Split(Join(fields, c), c) == fields
  {
    SplitWhole(fields[0], c);
    if |fields| > 1 {
      SplitJoin(fields[1..], c);
      SplitAppend(fields[0], c, Join(fields[1..], c));
    }
  }

  /** Splitting does not depend on which separator was used. */
  lemma {:induction false} SplitReplace(s: string, old_: char, new_: char)
    requires new_ !in s
    ensures Split(Replace(s, old_, new_), new_) == Split(s, old_)
  {
    var t := Replace(s, old_, new_);
    if s != [] {
      assert s[0] in s;
      assert t[1..] == Replace(s[1..], old_, new_);
      SplitReplace(s[1..], old_, new_);
    }
  }

  lemma FirstFieldStep(s: string, c: char)
    ensures FirstField(s, c) == if s == [] || s[0] == c then [] else [s[0]] + FirstField(s[1..], c)
  {
    if s != [] && s[0] != c {
      var i := Index(s[1..], c);
      if i != -1 {
        assert s[..i + 1] == [s[0]] + s[1..][..i];
      }
    }
  }

  lemma TrimStarts(s: string)
    ensures TrimCRLF(s) == [] || !IsCRLF(TrimCRLF(s)[0])
  {
  }

  lemma FieldStopsAt(s: string, c: char, k: nat)
    requires k < |s| && s[k] == c
    ensures |FirstField(s, c)| <= k
  {
  }

  lemma {:induction false} TrimRightAll(w: string, t: string, p: char -> bool)
    requires w == [] || !p(w[|w| - 1])
    requires forall i :: 0 <= i < |t| ==> p(t[i])
    ensures TrimRight(w + t, p) == w
  {
    if t == [] {
      assert w + t == w;
    } else {
      assert (w + t)[..|w + t| - 1] == w + t[..|t| - 1];
      TrimRightAll(w, t[..|t| - 1], p);
    }
  }

  lemma {:induction false} SkipLeft(pre: string, s: string, p: char -> bool)
    requires forall i :: 0 <= i < |pre| ==> p(pre[i])
    requires s == [] || !p(s[0])
    ensures TrimLeft(pre + s, p) == s
  {
    if pre == [] {
      assert pre + s == s;
    } else {
      assert (pre + s)[1..] == pre[1..] + s;
      SkipLeft(pre[1..], s, p);
    }
  }

  /** Trimming a line splits it into CR and LF bytes around what is left. */
  lemma TrimParts(line: string) returns (pre: string, post: string)
    ensures line == pre + TrimCRLF(line) + post
    ensures forall i :: 0 <= i < |pre| ==> IsCRLF(pre[i])
    ensures forall i :: 0 <= i < |post| ==> IsCRLF(post[i])
  {
    hide TrimLeft, TrimRight;
    TrimLeftIsSuffix(line, IsCRLF);
    var m := TrimLeft(line, IsCRLF);
    var t := TrimRight(m, IsCRLF);
    pre, post := line[..|line| - |m|], m[|t|..];
    assert m == t + post;
    assert line == pre + m == pre + t + post;
  }

  // ---------------------------------------------------------------- case and separators of several bytes

  /** Two bytes that are equal or the two cases of one ASCII letter. */
  predicate SameLetter(a: char, b: char) {
    a == b || (IsLetter(a) && IsLetter(b) && (a as int - b as int == 32 || b as int - a as int == 32))
  }

  /** Texts have one upper-case form exactly when they differ in case only, and it holds no lower-case letter. */
  lemma UpperIff(a: string, b: string)
    ensures ToUpper(a) == ToUpper(b) <==> |a| == |b| && forall i :: 0 <= i < |a| ==> SameLetter(a[i], b[i])
    ensures forall i :: 0 <= i < |a| ==> SameLetter(ToUpper(a)[i], a[i]) && !('a' <= ToUpper(a)[i] <= 'z')
  {
    var u, v := ToUpper(a), ToUpper(b);
    assert forall i :: 0 <= i < |a| ==> u[i] == UpperChar(a[i]);
    assert forall i :: 0 <= i < |b| ==> v[i] == UpperChar(b[i]);
  }

  /** The first part ends where the separator first stands, or with the text. */
  lemma {:induction false} FirstPartIs(s: string, sep: string)
    requires sep != []
    ensures var r := FirstPart(s, sep);
            && r <= s && (|r| < |s| ==> sep <= s[|r|..])
            && forall i :: 0 <= i < |r| ==> !(sep <= s[i..])
  {
    if s != [] && !(sep <= s) {
      FirstPartIs(s[1..], sep);
      var r := FirstPart(s, sep);
      assert s[|r|..] == s[1..][|r| - 1..];
      forall i | 0 <= i < |r| ensures !(sep <= s[i..]) {
        assert i > 0 ==> s[i..] == s[1..][i - 1..];
        assert i == 0 ==> s[i..] == s;
      }
    }
  }

  /** The two bytes are the UTF-8 encoding of the code point: five and six bits behind their markers. */
  lemma EncodedIs(c: char)
    requires 128 as char <= c < 256 as char
    ensures var high, low := Encoded(c)[0] as int, Encoded(c)[1] as int;
            0xC0 <= high < 0xE0 && 0x80 <= low < 0xC0 && (high - 0xC0) * 64 + (low - 0x80) == c as int
  {
  }
  // ---------------------------------------------------------------- white space and numbers with a sign

  lemma SpaceIs(c: char)
    ensures IsSpace(c) <==> c == ' ' || c == '\t' || c == '\n' || c == '\r' || c == 11 as char || c == 12 as char
  {
  }

  /** A plus sign changes nothing; a minus sign negates, down to the least 64-bit number. */
  lemma AtoiOfSigned(d: string)
    requires d != [] && AllDigits(d)
    ensures Atoi(['+'] + d) == Atoi(d)
    ensures Value(d) <= MAX_INT64 ==> Atoi(d).1 && Atoi(d).0 == Value(d) && Atoi(['-'] + d).0 == -Atoi(d).0
    ensures Value(d) <= MAX_INT64 ==> Atoi(['-'] + d).1
  {
    assert IsDigit(d[0]);
    assert (['+'] + d)[1..] == d && (['-'] + d)[1..] == d;
  }

  /** A number outside the 64-bit range becomes the nearest one inside, with an error. */
  lemma AtoiSaturates(d: string)
    requires d != [] && AllDigits(d) && Value(d) > MAX_INT64 + 1
    ensures Atoi(d) == (MAX_INT64, false) && Atoi(['-'] + d) == (MIN_INT64, false)
  {
    assert IsDigit(d[0]);
    assert (['-'] + d)[1..] == d;
  }

  /** Digits without a leading zero are the decimal form of their value. */
  lemma {:induction false} ItoaOfValue(f: string)
    requires f != [] && AllDigits(f) && (|f| > 1 ==> f[0] != '0')
    ensures Itoa(Value(f)) == f
    ensures |f| > 1 ==> Value(f) >= 10
  {
    var last := f[|f| - 1] as nat - '0' as nat;
    if |f| == 1 {
      assert f[..0] == [] && Value(f[..0]) == 0;
      assert [DigitOf(last)] == f;
    } else {
      var front := f[..|f| - 1];
      ItoaOfValue(front);
      FrontPositive(front);
      assert Value(f) == 10 * Value(front) + last;
      assert Value(f) / 10 == Value(front) && Value(f) % 10 == last;
      assert front + [DigitOf(last)] == f;
    }
  }

  lemma FrontPositive(f: string)
    requires f != [] && AllDigits(f) && f[0] != '0' && Itoa(Value(f)) == f
    ensures Value(f) > 0
  {
  }
}
