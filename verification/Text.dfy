/** Strings as the daemon uses them: lower-casing of keys, the tokenizer
    `Utils::split`, decimal printing and `std::stoi`, and `trim`.
    A string is a sequence of non-NUL bytes. */
module Text {

  datatype Option<+T> = None | Some(value: T)

  const INT_MAX: int := 0x7fff_ffff
  const INT_MIN: int := -0x8000_0000

  predicate FitsInt(n: int) { INT_MIN <= n <= INT_MAX }

  // ---------------------------------------------------------------- case

  function LowerChar(c: char): char {
    if 'A' <= c <= 'Z' then (c as int + 32) as char else c
  }

  function UpperChar(c: char): char {
    if 'a' <= c <= 'z' then (c as int - 32) as char else c
  }

  function Lower(s: string): string {
    seq(|s|, i requires 0 <= i < |s| => LowerChar(s[i]))
  }

  function Upper(s: string): string {
    seq(|s|, i requires 0 <= i < |s| => UpperChar(s[i]))
  }

  // ---------------------------------------------------------------- split

  predicate Free(s: string, delims: string) {
    forall i :: 0 <= i < |s| ==> s[i] !in delims
  }

  predicate IsToken(s: string, delims: string) { s != "" && Free(s, delims) }

  predicate AreTokens(ts: seq<string>, delims: string) {
    forall i :: 0 <= i < |ts| ==> IsToken(ts[i], delims)
  }

  /** `find_first_not_of(delims, from)`, with |s| standing for npos. */
  function FirstNotOf(s: string, delims: string, from: nat): (r: nat)
    requires from <= |s|
    ensures from <= r <= |s|
    ensures forall i :: from <= i < r ==> s[i] in delims
    ensures r < |s| ==> s[r] !in delims
    decreases |s| - from
  {
    if from < |s| && s[from] in delims then FirstNotOf(s, delims, from + 1) else from
  }

  /** `find_first_of(delims, from)`, with |s| standing for npos. */
  function FirstOf(s: string, delims: string, from: nat): (r: nat)
    requires from <= |s|
    ensures from <= r <= |s|
    ensures forall i :: from <= i < r ==> s[i] !in delims
    ensures r < |s| ==> s[r] in delims
    decreases |s| - from
  {
    if from < |s| && s[from] !in delims then FirstOf(s, delims, from + 1) else from
  }

  /** The tokens of `s`: its maximal runs of characters outside `delims`, left to right. */
  function Tokens(s: string, delims: string): (ts: seq<string>)
    ensures AreTokens(ts, delims)
    decreases |s|
  {
    if s == "" then []
    else if s[0] in delims then Tokens(s[1..], delims)
    else var e := FirstOf(s, delims, 0); [s[..e]] + Tokens(s[e..], delims)
  }

  lemma {:induction false} TokensSkip(s: string, delims: string, k: nat)
    requires k <= |s|
    requires forall i :: 0 <= i < k ==> s[i] in delims
    ensures Tokens(s, delims) == Tokens(s[k..], delims)
  {
    if k == 0 {
      assert s[0..] == s;
    } else {
      TokensSkip(s[1..], delims, k - 1);
      assert s[1..][k - 1..] == s[k..];
    }
  }

  lemma FirstOfShift(s: string, delims: string, from: nat)
    requires from <= |s|
    ensures FirstOf(s, delims, from) == from + FirstOf(s[from..], delims, 0)
  {
    assert forall i :: 0 <= i < |s| - from ==> s[from..][i] == s[from + i];
  }

  lemma TokensStep(s: string, delims: string, start: nat)
    requires start < |s| && s[start] !in delims
    ensures var end := FirstOf(s, delims, start);
            start < end && Tokens(s[start..], delims) == [s[start..end]] + Tokens(s[end..], delims)
  {
    var end := FirstOf(s, delims, start);
    FirstOfShift(s, delims, start);
    assert s[start..][..end - start] == s[start..end];
    assert s[start..][end - start..] == s[end..];
  }

  lemma NoTokens(delims: string)
    ensures Tokens("", delims) == []
  {}

  lemma TokensAfter(s: string, delims: string, end: nat)
    requires end <= |s|
    ensures Tokens(s[end..], delims) == Tokens(s[FirstNotOf(s, delims, end)..], delims)
  {
    var start := FirstNotOf(s, delims, end);
    assert forall i :: 0 <= i < start - end ==> s[end..][i] == s[end + i];
    TokensSkip(s[end..], delims, start - end);
    assert s[end..][start - end..] == s[start..];
  }

  /** `Utils::split`: the loop of find calls collects exactly the tokens. */
  method Split(s: string, delims: string) returns (cont: seq<string>)
    ensures cont == Tokens(s, delims)
  {
    hide Tokens;
    cont := [];
    NoTokens(delims);
    ghost var all := Tokens(s, delims);
    var start := FirstNotOf(s, delims, 0);
    assert all == Tokens(s[start..], delims) by { TokensAfter(s, delims, 0); assert s[0..] == s; }
    var end := FirstOf(s, delims, start);
    while end < |s|
      invariant start <= end <= |s| && end == FirstOf(s, delims, start)
      invariant start < |s| ==> s[start] !in delims
      invariant all == cont + Tokens(s[start..], delims)
      decreases |s| - start
    {
      TokensStep(s, delims, start);
      TokensAfter(s, delims, end);
      cont := cont + [s[start..end]];
      start := FirstNotOf(s, delims, end);
      end := FirstOf(s, delims, start);
    }
    if start < |s| {
      TokensStep(s, delims, start);
      assert s[start..|s|] == s[start..];
      cont := cont + [s[start..]];
    }
    assert s[|s|..] == "";
  }

  /** The tokens of `ts` separated by one space: how every line is built. */
  function Join(ts: seq<string>): string {
    if |ts| == 0 then "" else if |ts| == 1 then ts[0] else ts[0] + " " + Join(ts[1..])
  }

  lemma TokenThenRest(t: string, rest: string, delims: string)
    requires IsToken(t, delims)
    requires rest == "" || rest[0] in delims
    ensures Tokens(t + rest, delims) == [t] + Tokens(rest, delims)
  {
    var s := t + rest;
    assert s[0] == t[0];
    var e := FirstOf(s, delims, 0);
    assert forall i :: 0 <= i < |t| ==> s[i] == t[i] && t[i] !in delims;
    assert rest != "" ==> s[|t|] == rest[0];
    assert e == |t|;
    assert s[..e] == t && s[e..] == rest;
  }

  /** Splitting a built line gives its fields back. */
  lemma {:induction false} TokensOfJoin(ts: seq<string>)
    requires AreTokens(ts, " ")
    ensures Tokens(Join(ts), " ") == ts
  {
    if |ts| == 1 {
      TokenThenRest(ts[0], "", " ");
      assert ts[0] + "" == ts[0];
    } else if |ts| > 1 {
      var rest := " " + Join(ts[1..]);
      TokenThenRest(ts[0], rest, " ");
      assert ts[0] + " " + Join(ts[1..]) == ts[0] + rest;
      assert rest[1..] == Join(ts[1..]);
      TokensOfJoin(ts[1..]);
    }
  }

  /** No leading, trailing or doubled space: what survives splitting and re-joining. */
  predicate SingleSpaced(s: string) {
    (s != "" ==> s[0] != ' ' && s[|s| - 1] != ' ') &&
    forall i, j :: 0 <= i < |s| && 0 <= j < |s| && j == i + 1 ==> !(s[i] == ' ' && s[j] == ' ')
  }

  lemma {:induction false} JoinIsSingleSpaced(ts: seq<string>)
    requires AreTokens(ts, " ")
    ensures SingleSpaced(Join(ts))
    ensures |ts| > 0 ==> Join(ts) != "" && Join(ts)[0] == ts[0][0]
  {
    if |ts| > 1 {
      JoinIsSingleSpaced(ts[1..]);
      var s, t, r := Join(ts), ts[0], Join(ts[1..]);
      assert s == t + " " + r;
      forall i, j | 0 <= i < |s| && 0 <= j < |s| && j == i + 1 ensures !(s[i] == ' ' && s[j] == ' ') {
        if i < |t| { assert s[i] == t[i]; }
        else if i > |t| { assert s[i] == r[i - |t| - 1] && s[j] == r[i - |t|]; }
      }
      assert s[|s| - 1] == r[|r| - 1];
    }
  }

  lemma SuffixSpaced(s: string, k: nat)
    requires SingleSpaced(s) && k < |s| && s[k] != ' '
    ensures SingleSpaced(s[k..])
  {
    var r := s[k..];
    assert forall i :: 0 <= i < |r| ==> r[i] == s[k + i];
  }

  lemma JoinCons(t: string, ts: seq<string>)
    ensures ts != [] ==> Join([t] + ts) == t + " " + Join(ts)
    ensures ts == [] ==> Join([t] + ts) == t && Join(ts) == ""
  {
    assert ([t] + ts)[1..] == ts;
  }

  lemma {:induction false} JoinOfTokens(s: string)
    requires SingleSpaced(s)
    ensures Join(Tokens(s, " ")) == s
    decreases |s|
  {
    if s != "" {
      var e := FirstOf(s, " ", 0);
      var t := s[..e];
      assert IsToken(t, " ");
      if e < |s| {
        assert s[e] == ' ' && e + 1 < |s| && s[e + 1] != ' ';
        SuffixSpaced(s, e + 1);
        JoinOfTokens(s[e + 1..]);
        WordThenRest(s, e);
      } else {
        TokenThenRest(s, "", " ");
        assert s + "" == s && t == s;
      }
    }
  }

  lemma WordThenRest(s: string, e: nat)
    requires e + 1 < |s| && s[e] == ' ' && IsToken(s[..e], " ")
    requires Join(Tokens(s[e + 1..], " ")) == s[e + 1..]
    ensures Join(Tokens(s, " ")) == s
  {
    hide FirstOf;
    hide Tokens;
    hide Join;
    var t, rest := s[..e], s[e + 1..];
    var ts := Tokens(rest, " ");
    JoinCons(t, ts);
    TokenThenRest(t, s[e..], " ");
    TokensSkip(s[e..], " ", 1);
    assert s[e..][1..] == rest;
    assert t + s[e..] == s;
    assert t + " " + rest == s;
  }

  /** Re-joining the tokens with one space restores the text exactly when it is single-spaced. */
  lemma RejoinExact(s: string)
    ensures Join(Tokens(s, " ")) == s <==> SingleSpaced(s)
  {
    JoinIsSingleSpaced(Tokens(s, " "));
    if SingleSpaced(s) { JoinOfTokens(s); }
  }

  // ---------------------------------------------------------------- trim

  predicate IsBlank(c: char) { c in "\t\n\r \U{0b}\U{0c}" }

  function RTrim(s: string): string {
    if s != "" && IsBlank(s[|s| - 1]) then RTrim(s[..|s| - 1]) else s
  }

  function LTrim(s: string): string {
    if s != "" && IsBlank(s[0]) then LTrim(s[1..]) else s
  }

  function Trim(s: string): string { LTrim(RTrim(s)) }

  // ---------------------------------------------------------------- numbers

  predicate IsDigit(c: char) { '0' <= c <= '9' }

  function DigitChar(d: nat): (c: char)
    requires d < 10
    ensures IsDigit(c) && c as int - '0' as int == d
  {
    ('0' as int + d) as char
  }

  predicate AllDigits(s: string) { forall i :: 0 <= i < |s| ==> IsDigit(s[i]) }

  function Decimal(n: nat): (s: string)
    ensures s != "" && AllDigits(s)
  {
    if n < 10 then [DigitChar(n)] else Decimal(n / 10) + [DigitChar(n % 10)]
  }

  /** The number a digit string denotes, most significant digit first. */
  function ValueOf(s: string): nat
    requires AllDigits(s)
  {
    if s == "" then 0 else 10 * ValueOf(s[..|s| - 1]) + (s[|s| - 1] as int - '0' as int)
  }

  lemma {:induction false} ValueOfDecimal(n: nat)
    ensures ValueOf(Decimal(n)) == n
  {
    if n >= 10 {
      ValueOfDecimal(n / 10);
      assert Decimal(n)[..|Decimal(n)| - 1] == Decimal(n / 10);
    } else {
      assert Decimal(n)[..0] == "";
    }
  }

  /** `std::to_string` of a signed integer. */
  function ToString(n: int): string {
    if n < 0 then "-" + Decimal(-n) else Decimal(n)
  }

  function DigitRun(s: string): (k: nat)
    ensures k <= |s| && AllDigits(s[..k]) && (k < |s| ==> !IsDigit(s[k]))
  {
    if s == "" || !IsDigit(s[0]) then 0
    else
      var k := DigitRun(s[1..]);
      assert forall i :: 1 <= i < 1 + k ==> s[i] == s[1..][..k][i - 1];
      1 + k
  }

  /** `std::stoi`: blanks, an optional sign, digits; None when it throws
      (no digits, or a value outside the 32-bit int range). */
  function Stoi(s: string): Option<int> {
    if s != "" && IsBlank(s[0]) then Stoi(s[1..])
    else
      var negative := s != "" && s[0] == '-';
      var body := if s != "" && (s[0] == '-' || s[0] == '+') then s[1..] else s;
      var k := DigitRun(body);
      if k == 0 then None
      else
        var v: int := if negative then -(ValueOf(body[..k]) as int) else ValueOf(body[..k]);
        if FitsInt(v) then Some(v) else None
  }

  lemma {:induction false} DigitRunAll(s: string)
    requires AllDigits(s)
    ensures DigitRun(s) == |s|
  {
    if s != "" { DigitRunAll(s[1..]); }
  }

  lemma StoiOfDigits(s: string)
    requires s != "" && AllDigits(s)
    ensures Stoi(s) == if FitsInt(ValueOf(s)) then Some(ValueOf(s)) else None
    ensures Stoi("-" + s) == if FitsInt(0 - ValueOf(s)) then Some(0 - ValueOf(s)) else None
  {
    hide ValueOf;
    hide DigitRun;
    DigitRunAll(s);
    assert IsDigit(s[0]);
    assert s[..|s|] == s;
    assert ("-" + s)[0] == '-' && ("-" + s)[1..] == s;
  }

  /** Printing then parsing a number gives it back exactly when it fits a 32-bit int. */
  lemma StoiOfToString(n: int)
    ensures Stoi(ToString(n)) == if FitsInt(n) then Some(n) else None
    ensures IsToken(ToString(n), " ")
  {
    hide ValueOf;
    hide Stoi;
    hide Decimal;
    var m := if n < 0 then -n else n;
    ValueOfDecimal(m);
    StoiOfDigits(Decimal(m));
    assert AllDigits(Decimal(m));
  }

  // ---------------------------------------------------------------- spelled out

  /** The letters of the alphabet change case, and no other character does. */
  lemma CaseIs(k: nat, c: char)
    requires k < 26
    ensures LowerChar("ABCDEFGHIJKLMNOPQRSTUVWXYZ"[k]) == "abcdefghijklmnopqrstuvwxyz"[k]
    ensures UpperChar("abcdefghijklmnopqrstuvwxyz"[k]) == "ABCDEFGHIJKLMNOPQRSTUVWXYZ"[k]
    ensures c as int < 65 || 90 < c as int ==> LowerChar(c) == c
    ensures c as int < 97 || 122 < c as int ==> UpperChar(c) == c
  {}

  /** Words that differ in case only have one lower-case form, that of the words in capitals. */
  lemma SameLower(s: string)
    ensures |Lower(s)| == |s| && Lower(Upper(s)) == Lower(s) && Lower(Lower(s)) == Lower(s)
    ensures Upper(Lower(s)) == Upper(s)
  {}

  /** Tab, line feed, vertical tab, form feed, carriage return, space. */
  predicate AllBlank(s: string) { forall i :: 0 <= i < |s| ==> 9 <= s[i] as int <= 13 || s[i] as int == 32 }

  lemma BlankIs(c: char)
    ensures IsBlank(c) <==> 9 <= c as int <= 13 || c as int == 32
  {}

  lemma {:induction false} LTrimIs(a: string, s: string)
    requires AllBlank(a) && s != "" && !AllBlank(s[..1])
    ensures LTrim(a + s) == s
  {
    hide IsBlank;
    if a == "" {
      assert a + s == s;
      BlankIs(s[0]);
    } else {
      assert (a + s)[0] == a[0] && (a + s)[1..] == a[1..] + s;
      BlankIs(a[0]);
      LTrimIs(a[1..], s);
    }
  }

  lemma {:induction false} RTrimIs(s: string, b: string)
    requires AllBlank(b) && (s != "" ==> !AllBlank(s[|s| - 1..]))
    ensures RTrim(s + b) == s
  {
    hide IsBlank;
    var t := s + b;
    if b == "" {
      assert t == s;
      if s != "" { BlankIs(s[|s| - 1]); }
    } else {
      assert t[|t| - 1] == b[|b| - 1] && t[..|t| - 1] == s + b[..|b| - 1];
      BlankIs(b[|b| - 1]);
      RTrimIs(s, b[..|b| - 1]);
    }
  }

  /** Trimming takes off the blanks at both ends and nothing else. */
  lemma TrimIs(a: string, s: string, b: string)
    requires AllBlank(a) && AllBlank(b)
    requires s != "" ==> !AllBlank(s[..1]) && !AllBlank(s[|s| - 1..])
    ensures Trim(a + s + b) == s
  {
    hide RTrim;
    hide LTrim;
    hide AllBlank;
    if s == "" {
      BothBlank(a, b);
      RTrimIs("", a + b);
      assert a + s + b == "" + (a + b);
      NothingToTrim();
    } else {
      assert (a + s)[|a + s| - 1..] == s[|s| - 1..];
      RTrimIs(a + s, b);
      LTrimIs(a, s);
    }
  }

  lemma BothBlank(a: string, b: string)
    requires AllBlank(a) && AllBlank(b)
    ensures AllBlank(a + b)
  {}

  lemma NothingToTrim()
    ensures LTrim("") == ""
  {}

  /** `stoi` passes over blanks, takes one sign and the digits after it, and stops at anything else. */
  lemma StoiIs(blanks: string, sign: string, digits: string, rest: string)
    requires AllBlank(blanks) && (sign == "" || sign == "+" || sign == "-")
    requires digits != "" && AllDigits(digits) && (rest != "" ==> !IsDigit(rest[0]))
    ensures var v: int := if sign == "-" then 0 - ValueOf(digits) else ValueOf(digits);
            Stoi(blanks + (sign + (digits + rest))) == if -2147483648 <= v <= 2147483647 then Some(v) else None
  {
    PassBlanks(blanks, sign + (digits + rest));
    SignedDigits(sign, digits, rest);
    hide Stoi;
    hide ValueOf;
  }

  lemma {:induction false} PassBlanks(blanks: string, s: string)
    requires AllBlank(blanks)
    ensures Stoi(blanks + s) == Stoi(s)
  {
    hide IsBlank;
    if blanks == "" {
      assert blanks + s == s;
    } else {
      assert (blanks + s)[0] == blanks[0] && (blanks + s)[1..] == blanks[1..] + s;
      BlankIs(blanks[0]);
      PassBlanks(blanks[1..], s);
    }
  }

  lemma SignedDigits(sign: string, digits: string, rest: string)
    requires sign == "" || sign == "+" || sign == "-"
    requires digits != "" && AllDigits(digits) && (rest != "" ==> !IsDigit(rest[0]))
    ensures var v: int := if sign == "-" then 0 - ValueOf(digits) else ValueOf(digits);
            Stoi(sign + (digits + rest)) == if -2147483648 <= v <= 2147483647 then Some(v) else None
  {
    hide IsBlank;
    hide ValueOf;
    var body := digits + rest;
    var s := sign + body;
    assert (sign == "" ==> s == body && s[0] == digits[0]) && (sign != "" ==> s[0] == sign[0] && s[1..] == body);
    assert IsDigit(digits[0]);
    BlankIs(s[0]);
    RunOf(digits, rest);
    assert body[..|digits|] == digits;
    hide DigitRun;
  }

  lemma {:induction false} RunOf(digits: string, rest: string)
    requires AllDigits(digits) && (rest != "" ==> !IsDigit(rest[0]))
    ensures DigitRun(digits + rest) == |digits|
  {
    if digits == "" {
      assert digits + rest == rest;
    } else {
      assert (digits + rest)[0] == digits[0] && (digits + rest)[1..] == digits[1..] + rest;
      RunOf(digits[1..], rest);
    }
  }

  /** Without a digit there `stoi` throws. */
  lemma StoiNone(blanks: string, sign: string, rest: string)
    requires AllBlank(blanks) && (sign == "" || sign == "+" || sign == "-")
    requires rest != "" ==> !IsDigit(rest[0])
    requires sign == "" && rest != "" ==> !AllBlank(rest[..1]) && rest[0] != '+' && rest[0] != '-'
    ensures Stoi(blanks + (sign + rest)) == None
  {
    var s := sign + rest;
    PassBlanks(blanks, s);
    hide IsBlank;
    hide ValueOf;
    assert (sign == "" ==> s == rest) && (sign != "" ==> s[1..] == rest);
    if s != "" { BlankIs(s[0]); }
  }
}
