/** Naira strings and kobo amounts, on the backend and in the browser. */
module Money {
  import opened Wrappers
  import opened Fees
  import Bigint

  // ----- decimal digits ------------------------------------------------------------------------------------

  predicate IsDigit(c: char) {
    '0' <= c <= '9'
  }

  predicate AllDigits(s: string) {
    forall c <- s :: IsDigit(c)
  }

  function DigitOf(d: nat): (c: char)
    requires d < 10
    ensures IsDigit(c) && c as int - '0' as int == d
  {
    ('0' as int + d) as char
  }

  /** How a non-negative bigint prints. */
  function Digits(n: nat): (s: string)
    ensures s != "" && AllDigits(s)
  {
    if n < 10 then [DigitOf(n)] else Digits(n / 10) + [DigitOf(n % 10)]
  }

  /** The number a string of digits denotes; the empty string denotes zero. */
  function Value(s: string): nat
    requires AllDigits(s)
  {
    if s == "" then 0
    else
      assert AllDigits(s[..|s| - 1]) && IsDigit(s[|s| - 1]);
      10 * Value(s[..|s| - 1]) + (s[|s| - 1] as int - '0' as int)
  }

  function PadStart(s: string): (r: string)
    ensures |r| >= 2
  {
    if |s| == 0 then "00" else if |s| == 1 then "0" + s else s
  }

  /** Pads with zeros on the right, then keeps two characters. */
  function PadEndSlice(s: string): (r: string)
    ensures |r| == 2
  {
    if |s| == 0 then "00" else if |s| == 1 then s + "0" else s[..2]
  }

  function BeforeDot(s: string): (r: string)
    ensures |r| <= |s| && r == s[..|r|] && '.' !in r && (|r| < |s| ==> s[|r|] == '.')
  {
    if s == "" || s[0] == '.' then "" else [s[0]] + BeforeDot(s[1..])
  }

  /** The second part of the string split at its dots, if there is one. */
  function AfterDot(s: string): Option<string> {
    var n := |BeforeDot(s)|;
    if n == |s| then None else Some(BeforeDot(s[n + 1..]))
  }

  // ----- the backend ---------------------------------------------------------------------------------------

  datatype ParseError = InvalidNaira | NotANumber

  /** Digits, one dot, two digits. */
  predicate IsValidNairaString(s: string) {
    |s| >= 4 && s[|s| - 3] == '.' && AllDigits(s[..|s| - 3]) && AllDigits(s[|s| - 2..])
  }

  function NairaStringToKobo(s: string): Result<int, ParseError> {
    if !IsValidNairaString(s) then Failure(InvalidNaira)
    else
      SplitOfValid(s);
      Success(Value(BeforeDot(s)) * 100 + Value(AfterDot(s).value))
  }

  function KoboToNairaString(kobo: int): string {
    var absKobo := if kobo < 0 then -kobo else kobo;
    (if kobo < 0 then "-" else "") + Digits(absKobo / 100) + "." + PadStart(Digits(absKobo % 100))
  }

  // ----- the browser ---------------------------------------------------------------------------------------

  function Negated(n: int): int {
    -n
  }

  /** BigInt on plain decimal text: an optional sign before digits, and zero for the empty string. */
  function BigIntOf(s: string): Result<int, ParseError> {
    if AllDigits(s) then Success(Value(s))
    else if |s| > 1 && s[0] == '-' && AllDigits(s[1..]) then Success(Negated(Value(s[1..])))
    else Failure(NotANumber)
  }

  function WebNairaStringToKobo(s: string): Result<int, ParseError> {
    var nairaPart := BigIntOf(BeforeDot(s));
    var koboPart := BigIntOf(PadEndSlice(if AfterDot(s).Some? then AfterDot(s).value else "00"));
    if nairaPart.Failure? then nairaPart
    else if koboPart.Failure? then koboPart
    else Success(nairaPart.value * 100 + koboPart.value)
  }

  function AddNaira(a: string, b: string): Result<string, ParseError> {
    var x, y := WebNairaStringToKobo(a), WebNairaStringToKobo(b);
    if x.Failure? then Failure(x.error)
    else if y.Failure? then Failure(y.error)
    else Success(KoboToNairaString(x.value + y.value))
  }

  function SubtractNaira(a: string, b: string): Result<string, ParseError> {
    var x, y := WebNairaStringToKobo(a), WebNairaStringToKobo(b);
    if x.Failure? then Failure(x.error)
    else if y.Failure? then Failure(y.error)
    else Success(KoboToNairaString(x.value - y.value))
  }

  const WEB_NOMBA_INBOUND_FEE_MIN := "10.00"
  const WEB_NOMBA_INBOUND_FEE_MAX := "150.00"
  const WEB_PLATFORM_INBOUND_FEE := "10.00"

  /** The preview of the provider's cut, computed from and to naira strings. */
  function WebNombaInboundFeeFor(intendedNaira: string): Result<string, ParseError> {
    var intended := WebNairaStringToKobo(intendedNaira);
    var min, max := WebNairaStringToKobo(WEB_NOMBA_INBOUND_FEE_MIN), WebNairaStringToKobo(WEB_NOMBA_INBOUND_FEE_MAX);
    if intended.Failure? then Failure(intended.error)
    else if min.Failure? || max.Failure? then Failure(NotANumber)
    else
      var raw := Bigint.Div(intended.value * 100, 10_000);
      Success(KoboToNairaString(if raw < min.value then min.value else if raw > max.value then max.value else raw))
  }

  function WebInboundFeeFor(intendedNaira: string): Result<string, ParseError> {
    var cut := WebNombaInboundFeeFor(intendedNaira);
    if cut.Failure? then cut else AddNaira(cut.value, WEB_PLATFORM_INBOUND_FEE)
  }

  // ----- digits, both ways ---------------------------------------------------------------------------------

  lemma {:induction false} ValueOfDigits(n: nat)
    ensures Value(Digits(n)) == n
  {
    var s := Digits(n);
    if n >= 10 {
      ValueOfDigits(n / 10);
      assert s[..|s| - 1] == Digits(n / 10);
    } else {
      assert s[..|s| - 1] == "";
    }
  }

  predicate NoLeadingZero(s: string) {
    |s| == 1 || (|s| > 1 && s[0] != '0')
  }

  lemma {:induction false} DigitsLead(n: nat)
    ensures NoLeadingZero(Digits(n))
    ensures n > 0 ==> Digits(n)[0] != '0'
  {
    if n >= 10 {
      DigitsLead(n / 10);
    }
  }

  lemma {:induction false} PositiveValue(s: string)
    requires s != "" && AllDigits(s) && s[0] != '0'
    ensures Value(s) > 0
  {
    assert IsDigit(s[|s| - 1]);
    if |s| > 1 {
      PositiveValue(s[..|s| - 1]);
    } else {
      assert s[..0] == "";
    }
  }

  lemma {:induction false} DigitsOfValue(s: string)
    requires AllDigits(s) && NoLeadingZero(s)
    ensures Digits(Value(s)) == s
  {
    var d := s[|s| - 1];
    assert IsDigit(d);
    if |s| == 1 {
      assert s[..0] == "";
      assert Value(s) == d as int - '0' as int;
    } else {
      var rest := s[..|s| - 1];
      PositiveValue(rest);
      DigitsOfValue(rest);
      assert s == rest + [d];
      assert Value(s) / 10 == Value(rest) && Value(s) % 10 == d as int - '0' as int;
    }
  }

  lemma {:induction false} BeforeDotOf(head: string, tail: string)
    requires '.' !in head
    ensures BeforeDot(head + "." + tail) == head
    ensures AfterDot(head + "." + tail) == Some(BeforeDot(tail))
  {
    var s := head + "." + tail;
    assert s[|head| + 1..] == tail;
    if head == "" {
    } else {
      assert s[0] == head[0] && head[0] in head;
      assert s[1..] == head[1..] + "." + tail;
      BeforeDotOf(head[1..], tail);
      assert head == [head[0]] + head[1..];
    }
  }

  lemma {:induction false} NoDotHere(s: string)
    requires '.' !in s
    ensures BeforeDot(s) == s
  {
    if s != "" {
      assert s[0] in s;
      NoDotHere(s[1..]);
    }
  }

  lemma DigitsHaveNoDot(s: string)
    requires AllDigits(s)
    ensures '.' !in s
  {}

  /** A valid string splits at its dot into digits and two digits. */
  lemma SplitOfValid(s: string)
    requires IsValidNairaString(s)
    ensures BeforeDot(s) == s[..|s| - 3] && AfterDot(s) == Some(s[|s| - 2..])
    ensures AllDigits(BeforeDot(s)) && AllDigits(AfterDot(s).value)
  {
    hide BeforeDot, AfterDot;
    var head, tail := s[..|s| - 3], s[|s| - 2..];
    DigitsHaveNoDot(head);
    DigitsHaveNoDot(tail);
    hide AllDigits;
    ValidJoins(s);
    BeforeDotOf(head, tail);
    NoDotHere(tail);
  }

  lemma TwoDigits(n: nat)
    requires n < 100
    ensures |PadStart(Digits(n))| == 2 && AllDigits(PadStart(Digits(n))) && Value(PadStart(Digits(n))) == n
  {
    ValueOfDigits(n);
    var r := PadStart(Digits(n));
    if n < 10 {
      assert r[..1] == "0" && "0"[..0] == "";
    } else {
      assert |Digits(n / 10)| == 1;
    }
  }

  /** What an amount prints as, taken apart. */
  lemma Printed(kobo: int)
    ensures var absKobo := if kobo < 0 then -kobo else kobo;
            var head := (if kobo < 0 then "-" else "") + Digits(absKobo / 100);
            var tail := PadStart(Digits(absKobo % 100));
            && KoboToNairaString(kobo) == head + "." + tail
            && BeforeDot(KoboToNairaString(kobo)) == head && AfterDot(KoboToNairaString(kobo)) == Some(tail)
            && |tail| == 2 && AllDigits(tail) && Value(tail) == absKobo % 100
            && Value(Digits(absKobo / 100)) == absKobo / 100
  {
    var absKobo := if kobo < 0 then -kobo else kobo;
    var head := (if kobo < 0 then "-" else "") + Digits(absKobo / 100);
    var tail := PadStart(Digits(absKobo % 100));
    TwoDigits(absKobo % 100);
    ValueOfDigits(absKobo / 100);
    DigitsHaveNoDot(Digits(absKobo / 100));
    DigitsHaveNoDot(tail);
    BeforeDotOf(head, tail);
    NoDotHere(tail);
  }

  // ----- round trips ---------------------------------------------------------------------------------------

  /** Every non-negative amount prints as a valid naira string and parses back to itself; a negative one prints
      as a string the backend's parser refuses. */
  lemma PrintThenParse(kobo: int)
    ensures IsValidNairaString(KoboToNairaString(kobo)) <==> kobo >= 0
    ensures kobo >= 0 ==> NairaStringToKobo(KoboToNairaString(kobo)) == Success(kobo)
  {
    hide KoboToNairaString, IsValidNairaString, NairaStringToKobo;
    hide Digits, PadStart, Value, BeforeDot, AfterDot, AllDigits;
    if kobo >= 0 {
      Printed(kobo);
      assert "" + Digits(kobo / 100) == Digits(kobo / 100);
      ParsedFrom(Digits(kobo / 100), PadStart(Digits(kobo % 100)));
    } else {
      NegativeIsRefused(kobo);
    }
  }

  lemma NegativeIsRefused(kobo: int)
    requires kobo < 0
    ensures !IsValidNairaString(KoboToNairaString(kobo))
  {
    hide NairaStringToKobo, Digits, PadStart, Value, BeforeDot, AfterDot;
    Printed(kobo);
    var s := KoboToNairaString(kobo);
    hide KoboToNairaString;
    assert s[0] == '-';
    if |s| >= 4 {
      assert s[0] in s[..|s| - 3];
    }
  }

  /** Parsing and printing gives a valid string back exactly when it has no superfluous leading zero. */
  lemma ParseThenPrintIff(s: string)
    requires IsValidNairaString(s)
    ensures var kobo := NairaStringToKobo(s).value;
            kobo >= 0 && (KoboToNairaString(kobo) == s <==> NoLeadingZero(BeforeDot(s)))
  {
    hide NairaStringToKobo, KoboToNairaString, BeforeDot, NoLeadingZero;
    ValidJoins(s);
    ReprintsIff(s, s[..|s| - 3], s[|s| - 2..]);
  }

  lemma ReprintsIff(s: string, head: string, tail: string)
    requires s == head + "." + tail && head != "" && AllDigits(head) && |tail| == 2 && AllDigits(tail)
    ensures NairaStringToKobo(s).Success?
    ensures var kobo := NairaStringToKobo(s).value;
            kobo >= 0 && (KoboToNairaString(kobo) == s <==> NoLeadingZero(BeforeDot(s)))
  {
    hide IsValidNairaString, NairaStringToKobo, KoboToNairaString, Digits, PadStart, Value, BeforeDot, NoLeadingZero;
    ParsedFrom(head, tail);
    Reprinted(head, tail, Value(head), Value(tail));
  }

  lemma Reprinted(head: string, tail: string, whole: nat, part: nat)
    requires head != "" && AllDigits(head) && whole == Value(head)
    requires part < 100 && PadStart(Digits(part)) == tail
    ensures KoboToNairaString(whole * 100 + part) == head + "." + tail <==> NoLeadingZero(head)
  {
    hide KoboToNairaString, PadStart, NoLeadingZero;
    PrintedFrom(whole, part);
    DigitsIff(head);
    hide AllDigits, Digits, Value;
    SameHead(Digits(whole), head, tail);
  }

  /** What digits, a dot and two digits parse to. */
  lemma ParsedFrom(head: string, tail: string)
    requires head != "" && AllDigits(head) && |tail| == 2 && AllDigits(tail)
    ensures var s := head + "." + tail;
            && BeforeDot(s) == head && IsValidNairaString(s)
            && NairaStringToKobo(s) == Success(Value(head) * 100 + Value(tail))
            && Value(tail) < 100 && PadStart(Digits(Value(tail))) == tail
  {
    hide Digits, PadStart, BeforeDot, AfterDot, Value;
    var s := head + "." + tail;
    assert s[..|s| - 3] == head && s[|s| - 2..] == tail && s[|s| - 3] == '.';
    assert IsValidNairaString(s);
    DigitsHaveNoDot(head);
    DigitsHaveNoDot(tail);
    hide AllDigits;
    BeforeDotOf(head, tail);
    NoDotHere(tail);
    TwoDigitValue(tail);
  }

  lemma ValidJoins(s: string)
    requires IsValidNairaString(s)
    ensures s == s[..|s| - 3] + "." + s[|s| - 2..]
  {
    hide AllDigits;
    assert s == s[..|s| - 3] + s[|s| - 3..|s| - 2] + s[|s| - 2..] && s[|s| - 3..|s| - 2] == ".";
  }

  lemma PrintedFrom(whole: nat, part: nat)
    requires part < 100
    ensures KoboToNairaString(whole * 100 + part) == Digits(whole) + "." + PadStart(Digits(part))
  {
    hide Digits, PadStart;
    var kobo := whole * 100 + part;
    assert kobo / 100 == whole && kobo % 100 == part;
    assert "" + Digits(whole) == Digits(whole);
  }

  lemma SameHead(a: string, b: string, tail: string)
    ensures a + "." + tail == b + "." + tail <==> a == b
  {
    if a + "." + tail == b + "." + tail {
      assert |a| == |b|;
      assert (a + "." + tail)[..|a|] == a;
      assert (b + "." + tail)[..|a|] == b;
    }
  }

  lemma DigitsIff(s: string)
    requires AllDigits(s)
    ensures Digits(Value(s)) == s <==> NoLeadingZero(s)
  {
    DigitsLead(Value(s));
    if NoLeadingZero(s) {
      DigitsOfValue(s);
    }
  }

  lemma TwoDigitValue(s: string)
    requires |s| == 2 && AllDigits(s)
    ensures Value(s) < 100
    ensures PadStart(Digits(Value(s))) == s
  {
    assert s[..1][..0] == "" && s[..1] == [s[0]] && IsDigit(s[0]) && IsDigit(s[1]);
    var a, b := s[0] as int - '0' as int, s[1] as int - '0' as int;
    assert Value(s[..1]) == a;
    assert Value(s) == 10 * a + b;
    if a > 0 {
      assert Value(s) / 10 == a && Value(s) % 10 == b;
      assert Digits(a) == [s[0]];
    }
  }

  // ----- the browser agrees --------------------------------------------------------------------------------

  /** On every valid string the browser's parser gives what the backend's does. */
  lemma WebParsesTheSame(s: string)
    requires IsValidNairaString(s)
    ensures WebNairaStringToKobo(s) == NairaStringToKobo(s)
  {
    SplitOfValid(s);
    assert s[|s| - 2..][..2] == s[|s| - 2..];
  }

  /** What the browser's parser makes of a printed amount. */
  lemma WebParsesPrinted(kobo: int)
    ensures WebNairaStringToKobo(KoboToNairaString(kobo))
            == Success(if kobo >= 0 then kobo else -((-kobo) / 100) * 100 + (-kobo) % 100)
  {
    Printed(kobo);
    var s := KoboToNairaString(kobo);
    var head, tail := BeforeDot(s), AfterDot(s).value;
    assert PadEndSlice(tail) == tail by {
      assert tail[..2] == tail;
    }
    hide KoboToNairaString, Digits, PadStart, PadEndSlice, BeforeDot, AfterDot;
    if kobo < 0 {
      SignedBigInt(Digits((-kobo) / 100));
    } else {
      assert head == Digits(kobo / 100);
    }
  }

  lemma SignedBigInt(digits: string)
    requires digits != "" && AllDigits(digits)
    ensures BigIntOf("-" + digits) == Success(Negated(Value(digits)))
  {
    var s := "-" + digits;
    assert s[0] in s && s[1..] == digits;
  }

  lemma SignDropped(m: int)
    requires m >= 0
    ensures -(m / 100) * 100 + m % 100 == -m <==> -m % 100 == 0
  {
    assert m == m / 100 * 100 + m % 100;
    if m % 100 == 0 {
      assert -m == -(m / 100) * 100;
    } else {
      assert -m == (-(m / 100) - 1) * 100 + (100 - m % 100);
    }
  }

  /** The browser's own round trip is exact for non-negative amounts and whole negative naira, and for no other
      amount: it drops the sign of the kobo. */
  lemma WebRoundTripIff(kobo: int)
    ensures WebNairaStringToKobo(KoboToNairaString(kobo)) == Success(kobo) <==> kobo >= 0 || kobo % 100 == 0
  {
    WebParsesPrinted(kobo);
    hide WebNairaStringToKobo, KoboToNairaString;
    if kobo < 0 {
      SignDropped(-kobo);
    }
  }

  lemma ValidParses(s: string)
    requires IsValidNairaString(s)
    ensures NairaStringToKobo(s).Success? && NairaStringToKobo(s).value >= 0
  {}

  /** Adding in the browser is adding in kobo. */
  lemma AddNairaAdds(a: string, b: string)
    requires IsValidNairaString(a) && IsValidNairaString(b)
    ensures AddNaira(a, b).Success?
    ensures NairaStringToKobo(AddNaira(a, b).value) == Success(NairaStringToKobo(a).value + NairaStringToKobo(b).value)
  {
    hide WebNairaStringToKobo, NairaStringToKobo, KoboToNairaString, IsValidNairaString;
    assert NairaStringToKobo(a).Success? && NairaStringToKobo(a).value >= 0 by { ValidParses(a); }
    assert NairaStringToKobo(b).Success? && NairaStringToKobo(b).value >= 0 by { ValidParses(b); }
    WebParsesTheSame(a);
    WebParsesTheSame(b);
    PrintThenParse(NairaStringToKobo(a).value + NairaStringToKobo(b).value);
  }

  /** Subtracting gives a valid string exactly when the result is not negative. */
  lemma SubtractNairaIff(a: string, b: string)
    requires IsValidNairaString(a) && IsValidNairaString(b)
    ensures SubtractNaira(a, b).Success?
    ensures var x, y := NairaStringToKobo(a).value, NairaStringToKobo(b).value;
            && (IsValidNairaString(SubtractNaira(a, b).value) <==> x >= y)
            && (x >= y ==> NairaStringToKobo(SubtractNaira(a, b).value) == Success(x - y))
  {
    hide WebNairaStringToKobo, NairaStringToKobo, KoboToNairaString, IsValidNairaString;
    assert NairaStringToKobo(a).Success? && NairaStringToKobo(a).value >= 0 by { ValidParses(a); }
    assert NairaStringToKobo(b).Success? && NairaStringToKobo(b).value >= 0 by { ValidParses(b); }
    WebParsesTheSame(a);
    WebParsesTheSame(b);
    PrintThenParse(NairaStringToKobo(a).value - NairaStringToKobo(b).value);
  }

  lemma FeeConstants()
    ensures WebNairaStringToKobo(WEB_NOMBA_INBOUND_FEE_MIN) == Success(NOMBA_INBOUND_FEE_MIN)
    ensures WebNairaStringToKobo(WEB_NOMBA_INBOUND_FEE_MAX) == Success(NOMBA_INBOUND_FEE_MAX)
    ensures WebNairaStringToKobo(WEB_PLATFORM_INBOUND_FEE) == Success(PLATFORM_INBOUND_FEE)
  {
    assert Digits(10) == Digits(1) + "0" && Digits(1) == "1" && Digits(0) == "0";
    assert KoboToNairaString(1000) == "10.00";
    assert Digits(150) == Digits(15) + "0" && Digits(15) == Digits(1) + "5";
    assert KoboToNairaString(15000) == "150.00";
    WebRoundTripIff(1000);
    WebRoundTripIff(15000);
  }

  /** The fee the browser previews, parsed back to kobo, is the fee the backend charges, on every amount. */
  lemma WebFeeIsTheBackendFee(s: string)
    requires IsValidNairaString(s)
    ensures WebInboundFeeFor(s).Success?
    ensures NairaStringToKobo(WebInboundFeeFor(s).value) == Success(InboundFeeFor(NairaStringToKobo(s).value))
  {
    hide IsValidNairaString, NairaStringToKobo, WebNairaStringToKobo, KoboToNairaString, NombaInboundFeeFor;
    ValidParses(s);
    WebCut(s);
    FeeConstants();
    var cut := NombaInboundFeeFor(NairaStringToKobo(s).value);
    hide WebNombaInboundFeeFor;
    WebRoundTripIff(cut);
    PrintThenParse(cut + PLATFORM_INBOUND_FEE);
  }

  /** The browser's preview of the provider's cut, as a string. */
  lemma WebCut(s: string)
    requires IsValidNairaString(s)
    ensures NairaStringToKobo(s).Success?
    ensures WebNombaInboundFeeFor(s) == Success(KoboToNairaString(NombaInboundFeeFor(NairaStringToKobo(s).value)))
  {
    hide IsValidNairaString, NairaStringToKobo, WebNairaStringToKobo, KoboToNairaString;
    ValidParses(s);
    WebParsesTheSame(s);
    FeeConstants();
  }
}
