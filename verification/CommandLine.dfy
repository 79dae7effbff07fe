/**
 What the proxy sends to an origin: the sanitiser of command lines, the byte stream made of its results, and
 how the command the proxy dispatches on relates to the command it sends.
 */
module CommandLine {
  import opened GoStrings
  import opened Options
  import opened Sequences

  predicate NotLetter(c: char) { !IsLetter(c) }

  /** The HasSuffix and Count tests of commandLineCheck. */
  predicate ClosedOnce(l: string) {
    |l| >= 2 && l[|l| - 2..] == "\r\n" && Count(l, '\r') == 1 && Count(l, '\n') == 1
  }

  /** The value the loop of commandLineCheck computes; None is the aborted command line. */
  function Sanitize(line: string): Option<string> {
    var l := TrimLeft(line, NotLetter);
    if l == [] then None
    else if ClosedOnce(l) then Some(l)
    else Some(Without(Without(l, IsLF), IsCR) + "\r\n")
  }

  method CommandLineCheck(line: string) returns (r: Option<string>)
    ensures r == Sanitize(line)
  {
    var rest := line;
    while true
      invariant TrimLeft(rest, NotLetter) == TrimLeft(line, NotLetter)
      decreases |rest|
    {
      if |rest| == 0 {
        return None;
      }
      if IsLetter(rest[0]) {
        break;
      }
      rest := rest[1..];
    }
    if !(|rest| >= 2 && rest[|rest| - 2..] == "\r\n") || Count(rest, '\r') != 1 || Count(rest, '\n') != 1 {
      rest := Without(rest, IsLF);
      rest := Without(rest, IsCR);
      rest := rest + "\r\n";
    }
    return Some(rest);
  }

  /** A command line an origin can take: it starts with a letter and holds one CR and one LF, at its end. */
  predicate WellFormed(line: string) {
    && |line| >= 3 && IsLetter(line[0])
    && line[|line| - 2] == '\r' && line[|line| - 1] == '\n'
    && forall i :: 0 <= i < |line| - 2 ==> !IsCRLF(line[i])
  }

  lemma {:induction false} CountZero(s: string, c: char)
    ensures Count(s, c) == 0 <==> c !in s
  {
    if s != [] {
      CountZero(s[1..], c);
      assert s == [s[0]] + s[1..];
    }
  }

  lemma {:induction false} CountAppend(a: string, b: string, c: char)
    ensures Count(a + b, c) == Count(a, c) + Count(b, c)
  {
    if a == [] {
      assert a + b == b;
    } else {
      assert (a + b)[1..] == a[1..] + b;
      CountAppend(a[1..], b, c);
    }
  }

  lemma {:induction false} WithoutAppend(a: string, b: string, p: char -> bool)
    ensures Without(a + b, p) == Without(a, p) + Without(b, p)
  {
    if a == [] {
      assert a + b == b;
    } else {
      assert (a + b)[1..] == a[1..] + b;
      WithoutAppend(a[1..], b, p);
    }
  }

  lemma {:induction false} WithoutNone(s: string, p: char -> bool)
    requires forall i :: 0 <= i < |s| ==> !p(s[i])
    ensures Without(s, p) == s
  {
    if s != [] {
      WithoutNone(s[1..], p);
    }
  }

  lemma {:induction false} WithoutAll(s: string, p: char -> bool)
    requires forall i :: 0 <= i < |s| ==> p(s[i])
    ensures Without(s, p) == []
  {
    if s != [] {
      WithoutAll(s[1..], p);
    }
  }

  lemma {:induction false} WithoutTwice(s: string)
    ensures Without(Without(s, IsLF), IsCR) == Without(s, IsCRLF)
  {
    if s != [] {
      WithoutTwice(s[1..]);
      var t := Without(s[1..], IsLF);
      if IsLF(s[0]) {
        assert Without(s, IsLF) == t;
      } else {
        assert Without(s, IsLF) == [s[0]] + t;
        assert ([s[0]] + t)[1..] == t;
      }
    }
  }

  /** A body without CR and LF, closed by CRLF, loses just the CRLF. */
  lemma ClosedBody(body: string)
    requires forall i :: 0 <= i < |body| ==> !IsCRLF(body[i])
    ensures Without(body + "\r\n", IsCRLF) == body
  {
    WithoutNone(body, IsCRLF);
    WithoutAll("\r\n", IsCRLF);
    WithoutAppend(body, "\r\n", IsCRLF);
  }

  lemma ClosedOnceMeans(l: string)
    requires ClosedOnce(l)
    ensures Without(l, IsCRLF) + "\r\n" == l
  {
    var body := l[..|l| - 2];
    assert l == body + "\r\n";
    CountAppend(body, "\r\n", '\r');
    CountAppend(body, "\r\n", '\n');
    CountZero(body, '\r');
    CountZero(body, '\n');
    forall i | 0 <= i < |body| ensures !IsCRLF(body[i]) { assert body[i] in body; }
    ClosedBody(body);
  }

  lemma WellFormedClosed(w: string)
    requires |w| > 0 && IsLetter(w[0]) && forall i :: 0 <= i < |w| ==> !IsCRLF(w[i])
    ensures WellFormed(w + "\r\n")
  {
  }

  /** The check fails exactly when the line has no letter. */
  lemma SanitizeFailsIff(line: string)
    ensures Sanitize(line).None? <==> forall i :: 0 <= i < |line| ==> !IsLetter(line[i])
  {
    TrimLeftIsSuffix(line, NotLetter);
    var l := TrimLeft(line, NotLetter);
    if l != [] {
      assert l[0] == line[|line| - |l|];
    }
  }

  /**
   Whichever branch is taken, the result is the line from its first letter on, freed of every CR and LF and
   closed by one CRLF.
   */
  lemma SanitizeMeans(line: string)
    requires TrimLeft(line, NotLetter) != []
    ensures Sanitize(line) == Some(Without(TrimLeft(line, NotLetter), IsCRLF) + "\r\n")
    ensures WellFormed(Sanitize(line).value)
  {
    var l := TrimLeft(line, NotLetter);
    WithoutTwice(l);
    if ClosedOnce(l) {
      ClosedOnceMeans(l);
    }
    var w := Without(l, IsCRLF);
    assert w == [l[0]] + Without(l[1..], IsCRLF);
    WellFormedClosed(w);
  }

  /** The fixpoints of the sanitiser are exactly the well-formed lines, and every result is one. */
  lemma FixpointIff(line: string)
    ensures Sanitize(line) == Some(line) <==> WellFormed(line)
  {
    if TrimLeft(line, NotLetter) != [] {
      SanitizeMeans(line);
    }
    if WellFormed(line) {
      assert line == line[..|line| - 2] + "\r\n";
      ClosedBody(line[..|line| - 2]);
    }
  }

  lemma SanitizeTwice(line: string)
    requires Sanitize(line).Some?
    ensures Sanitize(Sanitize(line).value) == Sanitize(line)
  {
    SanitizeMeans(line);
    FixpointIff(Sanitize(line).value);
  }

  // ---------------------------------------------------------------- the stream to the origin

  /** The lines an origin reads from a byte stream, each up to and including its LF. */
  function Decode(s: string): seq<string>
    decreases |s|
  {
    var i := Index(s, '\n');
    if i == -1 then (if s == [] then [] else [s]) else [s[..i + 1]] + Decode(s[i + 1..])
  }

  /** Any stream of sanitised lines decodes into exactly those lines. */
  lemma {:induction false} StreamDecodes(lines: seq<string>)
    requires forall i :: 0 <= i < |lines| ==> WellFormed(lines[i])
    ensures Decode(Joined(lines)) == lines
  {
    if lines != [] {
      var head, rest := lines[0], Joined(lines[1..]);
      var s := head + rest;
      forall k | 0 <= k < |head| - 1 ensures s[k] != '\n' {
        assert s[k] == head[k];
      }
      IndexIs(s, '\n', |head| - 1);
      assert s[..|head|] == head && s[|head|..] == rest;
      StreamDecodes(lines[1..]);
    }
  }

  /** The writing side of an origin connection: `sent` is every byte written, `lines` the commands they make. */
  class OriginWriter {
    var sent: string
    ghost var lines: seq<string>

    ghost predicate Valid()
      reads this
    {
      && sent == Joined(lines)
      && forall i :: 0 <= i < |lines| ==> WellFormed(lines[i])
    }

    constructor ()
      ensures Valid() && sent == "" && lines == []
    {
      sent, lines := "", [];
    }

    /** sendToOrigin; writeOk says whether the connection takes the bytes. */
    method SendToOrigin(line: string, writeOk: bool) returns (ok: bool)
      requires Valid()
      modifies this
      ensures Valid()
      ensures ok <==> writeOk && Sanitize(line).Some?
      ensures ok ==> lines == old(lines) + [Sanitize(line).value]
      ensures !ok ==> lines == old(lines)
      ensures Decode(sent) == lines
    {
      hide Decode, Sanitize, Joined;
      var checked := CommandLineCheck(line);
      StreamDecodes(lines);
      if checked.None? || !writeOk {
        return false;
      }
      SanitizeTwice(line);
      FixpointIff(checked.value);
      JoinedAppend(lines, checked.value);
      sent, lines := sent + checked.value, lines + [checked.value];
      StreamDecodes(lines);
      return true;
    }
  }

  // ---------------------------------------------------------------- dispatch

  /** getCommand(line)[0] */
  function Word(line: string): string {
    FirstField(TrimCRLF(line), ' ')
  }

  lemma WithoutStep(x: char, s: string, p: char -> bool)
    ensures Without([x] + s, p) == if p(x) then Without(s, p) else [x] + Without(s, p)
  {
    assert ([x] + s)[1..] == s;
    assert [] + Without(s, p) == Without(s, p);
  }

  lemma NothingLeft()
    ensures Without("", IsCRLF) == ""
  {
  }

  lemma {:induction false} FirstFieldWithout(s: string)
    ensures FirstField(Without(s, IsCRLF), ' ') == Without(FirstField(s, ' '), IsCRLF)
  {
    if s != [] {
      FirstFieldWithout(s[1..]);
      hide FirstField, Without;
      var x, rest := s[0], s[1..];
      assert s == [x] + rest;
      WithoutStep(x, rest, IsCRLF);
      WithoutStep(x, FirstField(rest, ' '), IsCRLF);
      FirstFieldStep(s, ' ');
      FirstFieldStep([x] + Without(rest, IsCRLF), ' ');
      assert ([x] + Without(rest, IsCRLF))[1..] == Without(rest, IsCRLF);
      NothingLeft();
    }
  }

  lemma {:induction false} WithoutShorter(s: string, p: char -> bool)
    ensures |Without(s, p)| <= |s|
    ensures |Without(s, p)| == |s| ==> forall i :: 0 <= i < |s| ==> !p(s[i])
  {
    if s != [] {
      WithoutShorter(s[1..], p);
    }
  }

  /** The command word an origin sees in a sanitised line. */
  lemma SanitizedWord(l: string)
    requires l != [] && IsLetter(l[0])
    ensures Word(Without(l, IsCRLF) + "\r\n") == Without(FirstField(l, ' '), IsCRLF)
  {
    var w := Without(l, IsCRLF);
    assert w == [l[0]] + Without(l[1..], IsCRLF);
    assert (w + "\r\n")[0] == l[0];
    TrimRightAll(w, "\r\n", IsCRLF);
    FirstFieldWithout(l);
  }

  /** The raw line names its command plainly: nothing but CR before its first letter, and no CR inside the word. */
  predicate PlainCommand(line: string) {
    var b := TrimCRLF(line);
    b != [] && IsLetter(b[0]) && '\r' !in Word(line)
  }

  lemma NoLFInside(line: string)
    requires ReadLine(line)
    ensures forall i :: 0 <= i < |Word(line)| ==> Word(line)[i] != '\n'
  {
    var pre, post := TrimParts(line);
    var b := TrimCRLF(line);
    if b != [] {
      forall i | 0 <= i < |b| ensures b[i] != '\n' {
        assert line[|pre| + i] == b[i];
      }
    }
  }

  lemma UpperKeepsLetters(c: char)
    ensures IsLetter(UpperChar(c)) <==> IsLetter(c)
  {
  }

  /** Of a line whose first byte other than CR is a letter, the origin sees the dispatched word less its CRs. */
  lemma LetterFirst(line: string)
    requires TrimCRLF(line) != [] && IsLetter(TrimCRLF(line)[0])
    ensures Without(FirstField(TrimLeft(line, NotLetter), ' '), IsCRLF) == Without(Word(line), IsCRLF)
  {
    var b := TrimCRLF(line);
    var pre, post := TrimParts(line);
    var l := b + post;
    assert line == pre + l && l[0] == b[0];
    SkipLeft(pre, l, NotLetter);
    WithoutAppend(b, post, IsCRLF);
    WithoutAll(post, IsCRLF);
    assert Without(l, IsCRLF) == Without(b, IsCRLF);
    FirstFieldWithout(b);
    FirstFieldWithout(l);
  }

  /** The command word an origin reads in the sanitised form of a line. */
  lemma ReadWord(line: string)
    requires Sanitize(line).Some?
    ensures TrimLeft(line, NotLetter) != []
    ensures Word(Sanitize(line).value) == Without(FirstField(TrimLeft(line, NotLetter), ' '), IsCRLF)
  {
    hide Word;
    SanitizeMeans(line);
    SanitizedWord(TrimLeft(line, NotLetter));
  }

  /** Of a line that starts with a letter the origin reads the dispatched word exactly when that holds no CR. */
  lemma AgreesAfterLetter(line: string)
    requires ReadLine(line) && TrimCRLF(line) != [] && IsLetter(TrimCRLF(line)[0])
    ensures var read := Without(FirstField(TrimLeft(line, NotLetter), ' '), IsCRLF);
            ToUpper(Word(line)) == ToUpper(read) <==> '\r' !in Word(line)
  {
    hide Word, TrimCRLF, FirstField, ReadLine;
    var w := Word(line);
    LetterFirst(line);
    NoLFInside(line);
    WithoutShorter(w, IsCRLF);
    if '\r' !in w {
      WithoutNone(w, IsCRLF);
    } else {
      assert |Without(w, IsCRLF)| < |w|;
      assert |ToUpper(Without(w, IsCRLF))| < |ToUpper(w)|;
    }
  }

  /** Any other line is dispatched on a word that starts with no letter, while the origin reads one that does. */
  lemma DiffersOtherwise(line: string)
    requires TrimLeft(line, NotLetter) != [] && !(TrimCRLF(line) != [] && IsLetter(TrimCRLF(line)[0]))
    ensures ToUpper(Word(line)) != ToUpper(Without(FirstField(TrimLeft(line, NotLetter), ' '), IsCRLF))
  {
    hide TrimLeft, TrimCRLF, FirstField, Without;
    var w, l := Word(line), TrimLeft(line, NotLetter);
    FirstFieldStep(l, ' ');
    WithoutStep(l[0], FirstField(l[1..], ' '), IsCRLF);
    var read := Without(FirstField(l, ' '), IsCRLF);
    assert read[0] == l[0];
    UpperKeepsLetters(l[0]);
    assert IsLetter(ToUpper(read)[0]);
    if w != [] {
      assert w[0] == TrimCRLF(line)[0];
      UpperKeepsLetters(w[0]);
      assert !IsLetter(ToUpper(w)[0]);
    }
  }

  /**
   The proxy dispatches on the raw line but sends the sanitised one. The origin sees the command that was
   dispatched, up to case, exactly for lines that name it plainly.
   */
  lemma DispatchAgreesIff(line: string)
    requires ReadLine(line) && Sanitize(line).Some?
    ensures ToUpper(Word(line)) == ToUpper(Word(Sanitize(line).value)) <==> PlainCommand(line)
  {
    hide Sanitize, Word, ToUpper, TrimCRLF, ReadLine;
    ReadWord(line);
    if TrimCRLF(line) != [] && IsLetter(TrimCRLF(line)[0]) {
      AgreesAfterLetter(line);
    } else {
      DiffersOtherwise(line);
    }
  }
}
