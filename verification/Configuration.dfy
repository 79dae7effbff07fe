/** Configuration checks and what the data channel does with a checked configuration. */
module Configuration {
  import opened GoStrings
  import opened Options
  import opened Addresses

  datatype ConfigError = WrongMasqueradeIP | WrongTransferMode

  /** The settings that validateConfig looks at or rewrites. */
  datatype Values = Values(portRange: string, masqueradeIP: string, transferMode: string)

  function TrimSpace(s: string): string {
    Trim(s, IsSpace)
  }

  /** dataPortRangeValidation */
  predicate RangeAccepted(r: string) {
    r == "" ||
    var parts := Split(r, '-');
    && |parts| == 2
    && var (min, ok1) := Atoi(TrimSpace(parts[0]));
       var (max, ok2) := Atoi(TrimSpace(parts[1]));
       ok1 && ok2 && 1 <= min <= max <= 65535
  }

  function Mode(name: string): Option<string> {
    match ToUpper(name)
    case "PORT" => Some("PORT")
    case "ACTIVE" => Some("PORT")
    case "PASV" => Some("PASV")
    case "PASSIVE" => Some("PASV")
    case "EPSV" => Some("EPSV")
    case "CLIENT" => Some("CLIENT")
    case _ => None
  }

  function Validated(v: Values): (Values, Option<ConfigError>) {
    var w := v.(portRange := if RangeAccepted(v.portRange) then v.portRange else "");
    if w.masqueradeIP != "" && !IsLiteral(w.masqueradeIP) then (w, Some(WrongMasqueradeIP))
    else
      match Mode(w.transferMode)
      case Some(mode) => (w.(transferMode := mode), None)
      case None => (w.(transferMode := ToUpper(w.transferMode)), Some(WrongTransferMode))
  }

  class Config {
    var dataPortRange: string
    var masqueradeIP: string
    var transferMode: string
    var dataChanProxy: bool
    var ignorePassiveIP: bool
    var proxyProtocol: bool

    constructor (v: Values, dataChanProxy: bool, ignorePassiveIP: bool, proxyProtocol: bool)
      ensures Current() == v && this.dataChanProxy == dataChanProxy
      ensures this.ignorePassiveIP == ignorePassiveIP && this.proxyProtocol == proxyProtocol
    {
      dataPortRange, masqueradeIP, transferMode := v.portRange, v.masqueradeIP, v.transferMode;
      this.dataChanProxy, this.ignorePassiveIP, this.proxyProtocol := dataChanProxy, ignorePassiveIP, proxyProtocol;
    }

    function Current(): Values
      reads this
    {
      Values(dataPortRange, masqueradeIP, transferMode)
    }

    method ValidateConfig() returns (err: Option<ConfigError>)
      modifies this`dataPortRange, this`transferMode
      ensures (Current(), err) == Validated(old(Current()))
    {
      if !RangeAccepted(dataPortRange) {
        dataPortRange := "";
      }
      if |masqueradeIP| > 0 && ParseIP(masqueradeIP).None? {
        return Some(WrongMasqueradeIP);
      }
      transferMode := ToUpper(transferMode);
      match transferMode {
        case "PORT" => transferMode := "PORT";
        case "ACTIVE" => transferMode := "PORT";
        case "PASV" => transferMode := "PASV";
        case "PASSIVE" => transferMode := "PASV";
        case "EPSV" => transferMode := "EPSV";
        case "CLIENT" =>
        case _ => return Some(WrongTransferMode);
      }
      return None;
    }
  }

  /** A transfer mode that survives validation. */
  predicate IsMode(mode: string) {
    mode == "PORT" || mode == "PASV" || mode == "EPSV" || mode == "CLIENT"
  }

  lemma UpperTwice(s: string)
    ensures ToUpper(ToUpper(s)) == ToUpper(s)
  {
  }

  lemma UpperOfMode(mode: string)
    requires IsMode(mode)
    ensures ToUpper(mode) == mode
  {
  }

  /** Validating again changes nothing, neither in the configuration nor in the verdict. */
  lemma ValidationIsIdempotent(v: Values)
    ensures Validated(Validated(v).0) == Validated(v)
  {
    UpperTwice(v.transferMode);
    if Mode(v.transferMode).Some? {
      UpperOfMode(Mode(v.transferMode).value);
    }
  }

  /** What an accepted configuration guarantees to the data channel. */
  lemma AcceptedConfig(v: Values)
    requires Validated(v).1.None?
    ensures IsMode(Validated(v).0.transferMode) && RangeAccepted(Validated(v).0.portRange)
    ensures Validated(v).0.masqueradeIP == "" || IsLiteral(Validated(v).0.masqueradeIP)
  {
  }

  // ---------------------------------------------------------------- listen ports

  /** The outcome of getListenPort: a port text, or the run-time panic of an index or of rand.Intn. */
  datatype Choice = Port(text: string) | Panic

  lemma SpaceFree(s: string, c: char)
    requires c !in s
    ensures c !in TrimSpace(s)
  {
    TrimLeftIsSuffix(s, IsSpace);
    var m := TrimLeft(s, IsSpace);
    forall x | x in TrimRight(m, IsSpace) ensures x in s {
      assert x in m;
    }
  }

  /** Fields between dashes hold no sign, so getListenPort never sees a negative bound. */
  lemma BoundIsNatural(r: string, i: nat)
    requires i < |Split(r, '-')|
    ensures Atoi(TrimSpace(Split(r, '-')[i])).0 >= 0
  {
    FieldsAreFree(r, '-', Split(r, '-')[i]);
    SpaceFree(Split(r, '-')[i], '-');
    var f := TrimSpace(Split(r, '-')[i]);
    assert f != [] ==> f[0] in f;
  }

  function Bound(r: string, i: nat): nat
    requires i < |Split(r, '-')|
  {
    BoundIsNatural(r, i);
    Atoi(TrimSpace(Split(r, '-')[i])).0
  }

  /** min + rand.Intn(max-min), and min alone when the two are equal */
  function Pick(min: nat, max: nat, draw: nat): nat
    requires min <= max
  {
    if min == max then min else min + draw % (max - min)
  }

  /** getListenPort; `draw` stands for the generator behind rand.Intn. */
  function GetListenPort(r: string, draw: nat): Choice {
    if r == "" then Port("")
    else if |Split(r, '-')| < 2 then Panic
    else if Bound(r, 1) < Bound(r, 0) then Panic
    else Port(Itoa(Pick(Bound(r, 0), Bound(r, 1), draw)))
  }

  lemma AcceptedBounds(r: string)
    requires RangeAccepted(r) && r != ""
    ensures |Split(r, '-')| == 2 && 1 <= Bound(r, 0) <= Bound(r, 1) <= 65535
  {
  }

  /** With an accepted range getListenPort never panics: the kernel chooses, or the port lies in the range. */
  lemma AcceptedRangeChooses(r: string, draw: nat)
    requires RangeAccepted(r)
    ensures GetListenPort(r, draw).Port?
    ensures r == "" ==> GetListenPort(r, draw).text == ""
    ensures r != "" ==>
      && |Split(r, '-')| == 2
      && var n := NumberIn(GetListenPort(r, draw).text);
         GetListenPort(r, draw).text == Itoa(n) && IsPort(n) && Bound(r, 0) <= n <= Bound(r, 1)
  {
    if r != "" {
      AcceptedBounds(r);
      hide Bound, Split, RangeAccepted;
      PickInRange(Bound(r, 0), Bound(r, 1), draw);
    }
  }

  /** The number a text of digits denotes, 0 for any other text. */
  function NumberIn(text: string): nat {
    if AllDigits(text) then Value(text) else 0
  }

  lemma PickInRange(min: nat, max: nat, draw: nat)
    requires min <= max
    ensures min <= Pick(min, max, draw) <= max && (Pick(min, max, draw) == max ==> min == max)
  {
  }

  lemma PickReaches(min: nat, max: nat, n: nat)
    requires min <= n < max
    ensures Pick(min, max, n - min) == n
  {
  }

  /** The upper end of a range of more than one port is never chosen; every other port of it can be. */
  lemma ChosenPortIff(r: string, n: nat)
    requires RangeAccepted(r) && r != ""
    ensures |Split(r, '-')| == 2
    ensures (exists draw: nat :: GetListenPort(r, draw) == Port(Itoa(n))) <==>
            Bound(r, 0) <= n < Bound(r, 1) || n == Bound(r, 0) == Bound(r, 1)
  {
    AcceptedBounds(r);
    hide Bound, Split, RangeAccepted, Pick;
    var min, max := Bound(r, 0), Bound(r, 1);
    forall draw: nat | GetListenPort(r, draw) == Port(Itoa(n))
      ensures min <= n < max || n == min == max
    {
      PickInRange(min, max, draw);
      assert Value(Itoa(Pick(min, max, draw))) == Value(Itoa(n));
    }
    if min == n == max {
      PickInRange(min, max, 0);
      assert GetListenPort(r, 0) == Port(Itoa(n));
    } else if min <= n < max {
      PickReaches(min, max, n);
      assert GetListenPort(r, n - min) == Port(Itoa(n));
    }
  }

  const CONNECTION_TIMEOUT := 30

  /**
   setNewListener; draws(k) and busy(k) are what the generator and the kernel answer at the k-th attempt. The
   result is the port text that was bound, or None after the last attempt failed.
   */
  method SetNewListener(r: string, draws: nat -> nat, busy: nat -> bool) returns (bound: Option<string>, attempts: nat)
    requires RangeAccepted(r)
    ensures 1 <= attempts <= 31
    ensures forall k :: 1 <= k < attempts ==> busy(k)
    ensures if bound.Some? then !busy(attempts) && Port(bound.value) == GetListenPort(r, draws(attempts))
            else attempts == 31 && busy(attempts)
  {
    attempts := 0;
    while true
      invariant attempts <= CONNECTION_TIMEOUT
      invariant forall k :: 1 <= k <= attempts ==> busy(k)
      decreases CONNECTION_TIMEOUT - attempts
    {
      attempts := attempts + 1;
      AcceptedRangeChooses(r, draws(attempts));
      var choice := GetListenPort(r, draws(attempts));
      if !busy(attempts) {
        return Some(choice.text), attempts;
      }
      if attempts > CONNECTION_TIMEOUT {
        return None, attempts;
      }
    }
  }

  // ---------------------------------------------------------------- what the checks accept

  /** The texts a transfer mode can be configured with, in any case, and what each stands for. */
  lemma ModeIff(name: string)
    ensures Mode(name) == Mode(ToUpper(name))
    ensures Mode(name) == Some("PORT") <==> ToUpper(name) == "PORT" || ToUpper(name) == "ACTIVE"
    ensures Mode(name) == Some("PASV") <==> ToUpper(name) == "PASV" || ToUpper(name) == "PASSIVE"
    ensures Mode(name) == Some("EPSV") <==> ToUpper(name) == "EPSV"
    ensures Mode(name) == Some("CLIENT") <==> ToUpper(name) == "CLIENT"
    ensures Mode(name).Some? ==> IsMode(Mode(name).value)
  {
    hide ToUpper;
    UpperTwice(name);
  }

  predicate Blank(s: string) {
    forall i :: 0 <= i < |s| ==> IsSpace(s[i])
  }

  /** White space around digits is dropped. */
  lemma PaddedNumber(before: string, digits: string, after: string)
    requires Blank(before) && Blank(after) && digits != [] && AllDigits(digits)
    ensures TrimSpace(before + digits + after) == digits && '-' !in before + digits + after
  {
    hide TrimSpace;
    assert before + digits + after == before + (digits + after);
    assert IsDigit(digits[0]) && IsDigit(digits[|digits| - 1]);
    assert (digits + after)[0] == digits[0];
    SkipLeft(before, digits + after, IsSpace);
    TrimRightAll(digits, after, IsSpace);
    forall c | c in before + digits + after ensures c != '-' {
      assert c in before || c in digits || c in after;
    }
    TrimSpaceIs(before + digits + after);
  }

  lemma TrimSpaceIs(s: string)
    ensures TrimSpace(s) == TrimRight(TrimLeft(s, IsSpace), IsSpace)
  {
  }

  /** Two numbers around a dash, with any white space around each, are a range exactly when they are ordered ports. */
  lemma RangeIff(a: string, min: nat, b: string, c: string, max: nat, d: string)
    requires Blank(a) && Blank(b) && Blank(c) && Blank(d) && min <= MAX_INT64 && max <= MAX_INT64
    ensures RangeAccepted((a + Itoa(min) + b) + ['-'] + (c + Itoa(max) + d)) <==> 1 <= min <= max <= 65535
  {
    hide TrimSpace, Itoa, Atoi, Blank;
    var left, right := a + Itoa(min) + b, c + Itoa(max) + d;
    PaddedNumber(a, Itoa(min), b);
    PaddedNumber(c, Itoa(max), d);
    SplitAppend(left, '-', right);
    SplitWhole(left, '-');
    SplitWhole(right, '-');
    assert Split(left + ['-'] + right, '-') == [left, right];
    AtoiItoa(min);
    AtoiItoa(max);
  }

  /** A text with no dash, or more than one, is no range. */
  lemma RangeNeedsOneDash(r: string)
    requires r != "" && |Split(r, '-')| != 2
    ensures !RangeAccepted(r)
  {
  }
  /**
   Validation fails exactly for a masquerade address that is no literal or an unknown mode. It drops a port range
   exactly if that is not accepted, and never touches the masquerade address.
   */
  lemma ValidatedIff(v: Values)
    ensures var (w, err) := Validated(v);
            && (err.None? <==> (v.masqueradeIP == "" || IsLiteral(v.masqueradeIP)) && Mode(v.transferMode).Some?)
            && (err == Some(WrongMasqueradeIP) <==> v.masqueradeIP != "" && !IsLiteral(v.masqueradeIP))
            && w.masqueradeIP == v.masqueradeIP
            && (RangeAccepted(v.portRange) ==> w.portRange == v.portRange)
            && (!RangeAccepted(v.portRange) ==> w.portRange == "")
            && (err.None? ==> Some(w.transferMode) == Mode(v.transferMode))
  {
    hide RangeAccepted, Mode, IsLiteral;
  }
}
