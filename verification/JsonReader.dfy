/** A reader of JSON text as RFC 8259 has it, written on the literals and digits of the
    format, and what it makes of a printed record. */
module JsonReader {
  import opened Text
  import opened GeoJson

  datatype Json =
    | Str(text: string)
    | Whole(n: int)
    | Real(text: string)
    | Bool(b: bool)
    | Obj(members: seq<(string, Json)>)
    | List(items: seq<Json>)

  /** A value read from the front of a text, and the text after it. */
  datatype Got<T> = Bad | Got(value: T, rest: string)

  // ---------------------------------------------------------------- the reader

  predicate IsSpace(c: char) { c == ' ' || c == '\t' || c == '\n' || c == '\r' }

  function Skip(s: string): (r: string)
    ensures |r| <= |s|
  {
    if s != "" && IsSpace(s[0]) then Skip(s[1..]) else s
  }

  /** Does the next character that is no space stand for `c`? */
  predicate Next(s: string, c: char) { Skip(s) != "" && Skip(s)[0] == c }

  /** The escapes of two characters; `\u` is not read. */
  function Escaped(c: char): Option<char> {
    match c
    case '"' => Some('"')
    case '\\' => Some('\\')
    case '/' => Some('/')
    case 'b' => Some('\U{08}')
    case 'f' => Some('\U{0c}')
    case 'n' => Some('\n')
    case 'r' => Some('\r')
    case 't' => Some('\t')
    case _ => None
  }

  function After(c: char, r: Got<string>): Got<string> {
    match r case Bad => Bad case Got(s, rest) => Got([c] + s, rest)
  }

  /** A string after its opening quote. */
  function Chars(s: string): (r: Got<string>)
    ensures r.Got? ==> |r.rest| < |s|
  {
    if s == "" || (s[0] as int) < 32 then Bad
    else if s[0] == '"' then Got("", s[1..])
    else if s[0] != '\\' then After(s[0], Chars(s[1..]))
    else if |s| == 1 || Escaped(s[1]) == None then Bad
    else After(Escaped(s[1]).value, Chars(s[2..]))
  }

  predicate OfNumber(c: char) { Worth(c) < 10 || c == '+' || c == '-' || c == '.' || c == 'e' || c == 'E' }

  /** The length of the number a text starts with. */
  function Run(s: string): (k: nat)
    ensures k <= |s| && forall i :: 0 <= i < k ==> OfNumber(s[i])
  {
    if s != "" && OfNumber(s[0]) then 1 + Run(s[1..]) else 0
  }

  function Worth(c: char): nat {
    match c
    case '0' => 0
    case '1' => 1
    case '2' => 2
    case '3' => 3
    case '4' => 4
    case '5' => 5
    case '6' => 6
    case '7' => 7
    case '8' => 8
    case '9' => 9
    case _ => 10
  }

  predicate OfNumbers(s: string) { forall i :: 0 <= i < |s| ==> OfNumber(s[i]) }

  predicate IsWhole(s: string) { s != "" && forall i :: 0 <= i < |s| ==> Worth(s[i]) < 10 }

  function Amount(s: string): nat { if s == "" then 0 else 10 * Amount(s[..|s| - 1]) + Worth(s[|s| - 1]) }

  function NumberOf(s: string): Json { if IsWhole(s) then Whole(Amount(s)) else Real(s) }

  predicate IsTrue(t: string) { |t| >= 4 && t[0] == 't' && t[1] == 'r' && t[2] == 'u' && t[3] == 'e' }

  predicate IsFalse(t: string) {
    |t| >= 5 && t[0] == 'f' && t[1] == 'a' && t[2] == 'l' && t[3] == 's' && t[4] == 'e'
  }

  function Value(s: string): (r: Got<Json>)
    ensures r.Got? ==> |r.rest| < |s|
    decreases |s|, 1
  {
    var t := Skip(s);
    if t == "" then Bad
    else if t[0] == '"' then match Chars(t[1..]) case Bad => Bad case Got(x, rest) => Got(Str(x), rest)
    else if t[0] == '{' then
      if Next(t[1..], '}') then Got(Obj([]), Skip(t[1..])[1..])
      else match Pairs(t[1..]) case Bad => Bad case Got(ms, rest) => Got(Obj(ms), rest)
    else if t[0] == '[' then
      if Next(t[1..], ']') then Got(List([]), Skip(t[1..])[1..])
      else match Elements(t[1..]) case Bad => Bad case Got(vs, rest) => Got(List(vs), rest)
    else if IsTrue(t) then Got(Bool(true), t[4..])
    else if IsFalse(t) then Got(Bool(false), t[5..])
    else if Run(t) > 0 then Got(NumberOf(t[..Run(t)]), t[Run(t)..])
    else Bad
  }

  /** The members of an object, the closing brace included. */
  function Pairs(s: string): (r: Got<seq<(string, Json)>>)
    ensures r.Got? ==> |r.rest| < |s|
    decreases |s|, 0
  {
    if !Next(s, '"') then Bad
    else
      match Chars(Skip(s)[1..])
      case Bad => Bad
      case Got(key, rest) => if Next(rest, ':') then Keyed(key, Skip(rest)[1..]) else Bad
  }

  /** The value of a member, and the members after it. */
  function Keyed(key: string, s: string): (r: Got<seq<(string, Json)>>)
    ensures r.Got? ==> |r.rest| < |s|
    decreases |s|, 2
  {
    match Value(s)
    case Bad => Bad
    case Got(v, rest) =>
      if Next(rest, '}') then Got([(key, v)], Skip(rest)[1..])
      else if Next(rest, ',') then
        match Pairs(Skip(rest)[1..]) case Bad => Bad case Got(ms, rest') => Got([(key, v)] + ms, rest')
      else Bad
  }

  /** The items of an array, the closing bracket included. */
  function Elements(s: string): (r: Got<seq<Json>>)
    ensures r.Got? ==> |r.rest| < |s|
    decreases |s|, 2
  {
    match Value(s)
    case Bad => Bad
    case Got(v, rest) =>
      if Next(rest, ']') then Got([v], Skip(rest)[1..])
      else if Next(rest, ',') then
        match Elements(Skip(rest)[1..]) case Bad => Bad case Got(vs, rest') => Got([v] + vs, rest')
      else Bad
  }

  /** The one value a whole text holds. */
  function Read(s: string): Option<Json> {
    match Value(s) case Bad => None case Got(v, rest) => if Skip(rest) == "" then Some(v) else None
  }

  // ---------------------------------------------------------------- what a record says

  function Meaning(t: Tree): Json
    requires WellFormed(t)
  {
    match t
    case Leaf(e) => Said(e)
    case Map(kids) => Obj(MeaningPairs(kids))
    case Arr(kids) => List(MeaningItems(kids))
  }

  function Said(e: Entry): Json
    requires e.EString? || Printable(e)
  {
    match e
    case EString(s) => Str(s)
    case ENumber(n) => Whole(n)
    case EInt32(i) => Whole(i)
    case EReal(text) => NumberOf(text)
    case EBool(b) => Bool(b)
  }

  function MeaningPairs(ts: Trees): seq<(string, Json)>
    requires Paired(ts)
  {
    match ts
    case Nil => []
    case Cons(k, Cons(v, tail)) => [(k.e.s, Meaning(v))] + MeaningPairs(tail)
  }

  function MeaningItems(ts: Trees): seq<Json>
    requires AllWellFormed(ts)
  {
    match ts case Nil => [] case Cons(t, tail) => [Meaning(t)] + MeaningItems(tail)
  }

  /** What `std::ostream` prints and JSON can hold: texts without quotes, backslashes and control
      characters, no negative INT32, no infinity. */
  predicate Sound(e: Entry) {
    match e
    case EString(s) => Unescaped(s)
    case EInt32(i) => 0 <= i < 0x1_0000_0000
    case EReal(text) => text != "" && OfNumbers(text)
    case _ => true
  }

  predicate Unescaped(s: string) { forall i :: 0 <= i < |s| ==> s[i] as int >= 32 && s[i] != '"' && s[i] != '\\' }

  predicate AllSound(t: Tree) {
    match t case Leaf(e) => Sound(e) case Map(kids) => EachSound(kids) case Arr(kids) => EachSound(kids)
  }

  predicate EachSound(ts: Trees) { match ts case Nil => true case Cons(t, tail) => AllSound(t) && EachSound(tail) }

  // ---------------------------------------------------------------- strings

  lemma {:induction false} PlainRead(s: string, rest: string)
    requires Unescaped(s)
    ensures Chars(s + ("\"" + rest)) == Got(s, rest)
  {
    var text := s + ("\"" + rest);
    if s == "" {
      assert text == "\"" + rest && text[1..] == rest;
    } else {
      assert text[1..] == s[1..] + ("\"" + rest);
      PlainRead(s[1..], rest);
      assert [s[0]] + s[1..] == s;
    }
  }

  function Slashes(n: nat): string { seq(n, _ => '\\') }

  lemma Unlike(c: char, r: Got<string>, s: string)
    requires r.Got? ==> r.value != s
    ensures After(c, r).Got? ==> After(c, r).value != [c] + s
  {
    if r.Got? { assert ([c] + r.value)[1..] == r.value && ([c] + s)[1..] == s; }
  }

  /** Once an escape was read, there is less text left than is to be read. */
  lemma {:induction false} TooShort(n: nat, s: string, rest: string)
    requires n > 0
    ensures var r := Chars(s + ("\"" + rest)); r.Got? ==> r.value != Slashes(n) + s
    decreases |s|
  {
    var text := s + ("\"" + rest);
    assert (Slashes(n) + s)[0] == '\\';
    if |s| >= 2 && s[0] == '\\' && s[1] == '\\' {
      assert text[0] == '\\' && text[1] == '\\' && text[2..] == s[2..] + ("\"" + rest);
      TooShort(n + 1, s[2..], rest);
      assert Slashes(n) + s == ['\\'] + (Slashes(n + 1) + s[2..]);
      Unlike('\\', Chars(text[2..]), Slashes(n + 1) + s[2..]);
    } else if s != "" {
      assert text[0] == s[0] && (|s| == 1 ==> text[1] == '"') && (|s| > 1 ==> text[1] == s[1]);
    }
  }

  /** A string that would need an escape never reads back. */
  lemma {:induction false} StrangeRead(s: string, rest: string)
    requires !Unescaped(s)
    ensures var r := Chars(s + ("\"" + rest)); r.Got? ==> r.value != s
  {
    var text := s + ("\"" + rest);
    assert text[0] == s[0];
    if s[0] == '\\' {
      if |s| >= 2 && s[1] == '\\' {
        assert text[2..] == s[2..] + ("\"" + rest);
        TooShort(1, s[2..], rest);
        assert s == ['\\'] + (Slashes(1) + s[2..]);
      Unlike('\\', Chars(text[2..]), Slashes(1) + s[2..]);
      } else {
        assert (|s| == 1 ==> text[1] == '"') && (|s| > 1 ==> text[1] == s[1]);
      }
    } else if s[0] != '"' && s[0] as int >= 32 {
      assert text[1..] == s[1..] + ("\"" + rest);
      StrangeRead(s[1..], rest);
      assert s == [s[0]] + s[1..];
      Unlike(s[0], Chars(text[1..]), s[1..]);
    }
  }

  // ---------------------------------------------------------------- numbers

  /** Nothing that goes on with a number. */
  predicate Ends(rest: string) { rest == "" || rest[0] == ',' || rest[0] == '\n' }

  lemma {:induction false} RunAll(s: string, rest: string)
    requires Ends(rest) && OfNumbers(s)
    ensures Run(s + rest) == |s|
  {
    if s == "" {
      assert s + rest == rest;
    } else {
      assert (s + rest)[1..] == s[1..] + rest;
      RunAll(s[1..], rest);
    }
  }

  /** The digits of a number are worth the number. */
  lemma {:induction false} DecimalAmount(n: nat)
    ensures IsWhole(Decimal(n)) && Amount(Decimal(n)) == n && OfNumbers(Decimal(n))
  {
    var s := Decimal(n);
    DigitWorth(n % 10);
    hide Worth;
    hide OfNumber;
    if n < 10 {
      assert s[..0] == "" && s == [DigitChar(n)] && Amount(s) == Worth(s[0]);
    } else {
      DecimalAmount(n / 10);
      assert s[..|s| - 1] == Decimal(n / 10) && s[|s| - 1] == DigitChar(n % 10);
    }
  }

  /** `ValueOf` is the number a digit string denotes, leading zeros or not. */
  lemma {:induction false} ValueIsAmount(s: string)
    requires AllDigits(s)
    ensures Amount(s) == ValueOf(s) && (s != "" ==> IsWhole(s))
  {
    if s != "" { ValueIsAmount(s[..|s| - 1]); }
  }

  lemma DigitWorth(d: nat)
    requires d < 10
    ensures Worth(DigitChar(d)) == d && OfNumber(DigitChar(d))
  {}

  lemma Spaceless(s: string)
    requires s == "" || !IsSpace(s[0])
    ensures Skip(s) == s
  {}

  lemma NumberRead(s: string, rest: string)
    requires Ends(rest) && s != "" && OfNumbers(s)
    ensures Value(s + rest) == Got(NumberOf(s), rest)
  {
    var text := s + rest;
    assert text[0] == s[0] && OfNumber(s[0]);
    RunAll(s, rest);
    assert text[..|s|] == s && text[|s|..] == rest;
    StartOfNumber(text);
  }

  lemma StartOfNumber(t: string)
    requires t != "" && OfNumber(t[0])
    ensures Value(t) == Got(NumberOf(t[..Run(t)]), t[Run(t)..])
  {
    assert !IsSpace(t[0]) && t[0] != '"' && t[0] != '{' && t[0] != '[' && !IsTrue(t) && !IsFalse(t);
    Spaceless(t);
    hide Skip;
    hide IsTrue;
    hide IsFalse;
    hide Chars;
    hide Pairs;
    hide Elements;
    hide OfNumber;
    hide IsSpace;
    hide NumberOf;
    hide Next;
  }

  /** The walk's words for a boolean are the literals of the format. */
  lemma BoolRead(b: bool, rest: string)
    ensures Value(Scalar(EBool(b)) + rest) == Got(Bool(b), rest)
  {
    var text := Scalar(EBool(b)) + rest;
    Spaceless(text);
    assert if b then text[4..] == rest else text[5..] == rest;
  }

  /** A text that is read as a number and is no whole one is made of a number's characters. */
  lemma NumberFrom(s: string)
    ensures var r := Value(s); r.Got? && r.value.Real? ==> r.value.text != "" && OfNumbers(r.value.text)
  {
    hide Chars;
    hide Pairs;
    hide Elements;
    hide Skip;
    hide Next;
    hide IsWhole;
    hide Amount;
    hide OfNumber;
    var t := Skip(s);
    if t != "" && Run(t) > 0 { assert OfNumbers(t[..Run(t)]); }
  }

  lemma WholeIsNumber(s: string)
    ensures IsWhole(s) ==> s != "" && OfNumbers(s)
  {
    hide Worth;
  }

  lemma ScalarRead(e: Entry, rest: string)
    requires Printable(e) && Ends(rest)
    ensures var r := Value(Scalar(e) + rest);
            (Sound(e) ==> r == Got(Said(e), rest)) && (r.Got? && r.value == Said(e) ==> Sound(e))
  {
    hide Value;
    hide Amount;
    hide IsWhole;
    hide OfNumbers;
    hide Decimal;
    hide Ends;
    match e
    case ENumber(n) =>
      DecimalAmount(n);
      NumberRead(Decimal(n), rest);
    case EInt32(i) =>
      DecimalAmount(AsUnsigned(i));
      NumberRead(Decimal(AsUnsigned(i)), rest);
    case EReal(text) =>
      WholeIsNumber(text);
      if Sound(e) { NumberRead(text, rest); } else { NumberFrom(text + rest); }
    case EBool(b) => BoolRead(b, rest);
  }

  // ---------------------------------------------------------------- records

  lemma {:induction false} SkipIndent(d: nat, s: string)
    ensures Skip(Indent(d) + s) == Skip(s)
  {
    SkipSpaces(d * 4, s);
  }

  lemma {:induction false} SkipSpaces(n: nat, s: string)
    ensures Skip(seq(n, _ => ' ') + s) == Skip(s)
  {
    var text := seq(n, _ => ' ') + s;
    if n == 0 {
      assert text == s;
    } else {
      assert text[1..] == seq(n - 1, _ => ' ') + s;
      SkipSpaces(n - 1, s);
    }
  }

  /** A line break and the indent after it. */
  lemma SkipLine(d: nat, s: string)
    ensures Skip("\n" + Indent(d) + s) == Skip(s)
  {
    var text := "\n" + Indent(d) + s;
    assert text[0] == '\n' && text[1..] == Indent(d) + s;
    SkipIndent(d, s);
  }

  lemma SameValue(s: string, t: string)
    requires Skip(s) == Skip(t)
    ensures Value(s) == Value(t) && (Value(s).Got? ==> Skip(s) != "")
  {
    hide Chars;
    hide Pairs;
    hide Elements;
    hide Run;
    hide NumberOf;
  }

  /** A printed string is read back exactly if it needs no escape. */
  lemma StringRead(s: string, rest: string)
    ensures var r := Value(Quote(s) + rest);
            (Unescaped(s) ==> r == Got(Str(s), rest)) && (r.Got? && r.value == Str(s) ==> Unescaped(s))
  {
    var text := Quote(s) + rest;
    assert text[0] == '"' && text[1..] == s + ("\"" + rest);
    Spaceless(text);
    if Unescaped(s) { PlainRead(s, rest); } else { StrangeRead(s, rest); }
    hide Chars;
    hide Skip;
    hide Next;
    hide Unescaped;
  }

  /** A sound thing is read as it was meant, an unsound one is not. */
  ghost predicate ReadsBack<T>(r: Got<T>, meant: T, rest: string, sound: bool) {
    (sound ==> r == Got(meant, rest)) && (r.Got? && r.value == meant ==> sound)
  }

  lemma SamePairs(s: string, t: string)
    requires Skip(s) == Skip(t)
    ensures Pairs(s) == Pairs(t)
  {
    hide Chars;
    hide Keyed;
  }

  lemma SameElements(s: string, t: string)
    requires Skip(s) == Skip(t)
    ensures Elements(s) == Elements(t)
  {
    SameValue(s, t);
    hide Value;
  }

  lemma KeyedFrom(key: string, s: string)
    ensures var r := Keyed(key, s);
            r.Got? ==> Value(s).Got? && |r.value| > 0 && r.value[0] == (key, Value(s).value)
  {
    hide Value;
    hide Pairs;
    hide Next;
  }

  lemma ElementsFrom(s: string)
    ensures var r := Elements(s); r.Got? ==> Value(s).Got? && |r.value| > 0 && r.value[0] == Value(s).value
  {
    hide Value;
    hide Next;
  }

  /** A printed key in front of a value. */
  lemma KeyRead(key: string, d: nat, text: string)
    ensures var line := Indent(d) + (Quote(key) + " : ") + text;
            Next(line, '"') &&
            (Unescaped(key) ==> Pairs(line) == Keyed(key, " " + text)) &&
            (!Unescaped(key) ==> var r := Pairs(line); r.Got? ==> |r.value| > 0 && r.value[0].0 != key)
  {
    var line, after := Indent(d) + (Quote(key) + " : ") + text, " : " + text;
    var quoted := Quote(key) + " : " + text;
    assert line == Indent(d) + quoted;
    SkipIndent(d, quoted);
    assert quoted[0] == '"' && quoted[1..] == key + ("\"" + after);
    Spaceless(quoted);
    hide Skip;
    hide Chars;
    hide Keyed;
    hide Unescaped;
    hide Indent;
    if Unescaped(key) {
      PlainRead(key, after);
      AfterKey(text);
    } else {
      StrangeRead(key, after);
      var r := Chars(quoted[1..]);
      if r.Got? && Next(r.rest, ':') { KeyedFrom(r.value, Skip(r.rest)[1..]); }
    }
  }

  lemma AfterKey(text: string)
    ensures Skip(" : " + text) == ": " + text && (": " + text)[1..] == " " + text
  {
    assert (" : " + text)[1..] == ": " + text;
  }

  /** A member whose value reads back, or does not, with what follows it. */
  lemma MemberRead(key: string, s: string, v: Json, sound: bool, after: string)
    requires ReadsBack(Value(s), v, after, sound)
    ensures !sound ==> var r := Keyed(key, " " + s); r.Got? ==> |r.value| > 0 && r.value[0] != (key, v)
    ensures sound ==> Keyed(key, " " + s) ==
                      if Next(after, '}') then Got([(key, v)], Skip(after)[1..])
                      else if Next(after, ',') then
                        match Pairs(Skip(after)[1..]) case Bad => Bad case Got(ms, rest) => Got([(key, v)] + ms, rest)
                      else Bad
  {
    SkipSpaces(1, s);
    assert seq(1, _ => ' ') == " ";
    SameValue(" " + s, s);
    KeyedFrom(key, " " + s);
    hide Value;
    hide Pairs;
    hide Next;
    hide Skip;
  }

  /** A closing line: blanks, the bracket, and the text after it. */
  ghost predicate Closes(close: string, bracket: char, rest: string) { Ends(close) && Skip(close) == [bracket] + rest }

  lemma ClosingLine(d: nat, bracket: char, rest: string)
    requires !IsSpace(bracket)
    ensures Closes("\n" + Indent(d) + [bracket] + rest, bracket, rest)
  {
    var close := [bracket] + rest;
    assert "\n" + Indent(d) + [bracket] + rest == "\n" + Indent(d) + close;
    SkipLine(d, close);
    Spaceless(close);
  }

  lemma LastMember(line: string, key: string, d: nat, s: string, v: Json, sound: bool, close: string, rest: string)
    requires line == Indent(d) + (Quote(key) + " : ") + s
    requires Closes(close, '}', rest) && ReadsBack(Value(s), v, close, sound)
    ensures Next(line, '"') && ReadsBack(Pairs(line), [(key, v)], rest, Unescaped(key) && sound)
  {
    KeyRead(key, d, s);
    MemberRead(key, s, v, sound, close);
    hide Pairs;
    hide Keyed;
    hide Value;
    hide Unescaped;
    hide Indent;
    hide Quote;
    assert Skip(close)[1..] == rest;
    hide Skip;
    assert forall ms: seq<(string, Json)> :: ms == [(key, v)] ==> ms[0] == (key, v) && ms[0].0 == key;
  }

  lemma FirstMember(line: string, key: string, d: nat, s: string, v: Json, sound: bool, next: string,
                    ms: seq<(string, Json)>, rest: string, soundRest: bool)
    requires line == Indent(d) + (Quote(key) + " : ") + s
    requires ReadsBack(Value(s), v, ",\n" + next, sound) && ReadsBack(Pairs(next), ms, rest, soundRest)
    ensures Next(line, '"') && ReadsBack(Pairs(line), [(key, v)] + ms, rest, Unescaped(key) && sound && soundRest)
  {
    var after := ",\n" + next;
    KeyRead(key, d, s);
    MemberRead(key, s, v, sound, after);
    Spaceless(after);
    NextLine(next);
    SamePairs(after[1..], next);
    hide Pairs;
    hide Keyed;
    hide Value;
    hide Unescaped;
    hide Indent;
    hide Quote;
    hide Skip;
    assert ([(key, v)] + ms)[0] == (key, v);
    Shorter((key, v), Pairs(next), ms);
  }

  lemma Shorter<T>(x: T, r: Got<seq<T>>, xs: seq<T>)
    ensures r.Got? && [x] + r.value == [x] + xs ==> r.value == xs
  {
    if r.Got? { assert ([x] + r.value)[1..] == r.value && ([x] + xs)[1..] == xs; }
  }

  lemma NextLine(next: string)
    ensures var after := ",\n" + next; after[0] == ',' && Skip(after[1..]) == Skip(next)
  {
    assert (",\n" + next)[1..] == "\n" + next;
    assert ("\n" + next)[1..] == next;
  }

  lemma LastItem(line: string, d: nat, s: string, v: Json, sound: bool, close: string, rest: string)
    requires line == Indent(d) + s && Closes(close, ']', rest) && ReadsBack(Value(s), v, close, sound)
    ensures ReadsBack(Elements(line), [v], rest, sound)
  {
    SkipIndent(d, s);
    SameElements(line, s);
    ElementsFrom(s);
    assert Skip(close)[1..] == rest;
    hide Value;
    hide Indent;
    hide Skip;
  }

  lemma FirstItem(line: string, d: nat, s: string, v: Json, sound: bool, next: string, vs: seq<Json>, rest: string,
                  soundRest: bool)
    requires line == Indent(d) + s
    requires ReadsBack(Value(s), v, ",\n" + next, sound) && ReadsBack(Elements(next), vs, rest, soundRest)
    ensures ReadsBack(Elements(line), [v] + vs, rest, sound && soundRest)
  {
    var after := ",\n" + next;
    SkipIndent(d, s);
    SameElements(line, s);
    ElementsFrom(s);
    Spaceless(after);
    NextLine(next);
    SameElements(after[1..], next);
    ElementsStep(s);
    hide Elements;
    hide Value;
    hide Indent;
    hide Skip;
    assert ([v] + vs)[0] == v;
    Shorter(v, Elements(next), vs);
  }

  /** The definition of `Elements` at one text. */
  lemma ElementsStep(s: string)
    ensures Elements(s) == match Value(s)
                           case Bad => Bad
                           case Got(v, rest) =>
                             if Next(rest, ']') then Got([v], Skip(rest)[1..])
                             else if Next(rest, ',') then
                               match Elements(Skip(rest)[1..])
                               case Bad => Bad
                               case Got(vs, rest') => Got([v] + vs, rest')
                             else Bad
  {
    hide Value;
    hide Skip;
  }

  lemma {:induction false} PairsShown(ts: Trees, d: nat, close: string, rest: string)
    requires Paired(ts) && ts.Cons? && Closes(close, '}', rest)
    ensures Next(Members(ts, d) + close, '"')
    ensures ReadsBack(Pairs(Members(ts, d) + close), MeaningPairs(ts), rest, EachSound(ts))
    decreases ts, 0
  {
    hide Pairs;
    hide Value;
    hide ReadsBack;
    hide Indent;
    hide Quote;
    hide Show;
    hide Next;
    hide Meaning;
    match ts
    case Cons(k, Cons(v, tail)) =>
      var key, shown, line := k.e.s, Show(v, d), Members(ts, d) + close;
      SoundPair(ts);
      if tail == Nil {
        ValueShown(v, d, close);
        assert line == Indent(d) + (Quote(key) + " : ") + (shown + close);
        LastMember(line, key, d, shown + close, Meaning(v), AllSound(v), close, rest);
        assert [(key, Meaning(v))] + [] == [(key, Meaning(v))];
      } else {
        var next := Members(tail, d) + close;
        var after := ",\n" + next;
        ValueShown(v, d, after);
        PairsShown(tail, d, close, rest);
        PairText(Indent(d) + (Quote(key) + " : "), shown, Members(tail, d), close);
        FirstMember(line, key, d, shown + after, Meaning(v), AllSound(v), next, MeaningPairs(tail), rest,
                    EachSound(tail));
      }
  }

  lemma PairText(a: string, b: string, c: string, close: string)
    ensures a + b + (",\n" + c) + close == a + (b + (",\n" + (c + close)))
  {}

  lemma SoundPair(ts: Trees)
    requires Paired(ts) && ts.Cons?
    ensures var k, v, tail := ts.head, ts.tail.head, ts.tail.tail;
            EachSound(ts) == (Unescaped(k.e.s) && AllSound(v) && EachSound(tail)) &&
            MeaningPairs(ts) == [(k.e.s, Meaning(v))] + MeaningPairs(tail)
  {}

  lemma {:induction false} ElementsShown(ts: Trees, d: nat, close: string, rest: string)
    requires AllWellFormed(ts) && ts.Cons? && Closes(close, ']', rest)
    ensures ReadsBack(Elements(Items(ts, d) + close), MeaningItems(ts), rest, EachSound(ts))
    decreases ts, 0
  {
    hide Elements;
    hide Value;
    hide ReadsBack;
    hide Indent;
    hide Show;
    hide Meaning;
    var t, tail, line := ts.head, ts.tail, Items(ts, d) + close;
    var shown := Show(t, d);
    if tail == Nil {
      ValueShown(t, d, close);
      assert line == Indent(d) + (shown + close);
      LastItem(line, d, shown + close, Meaning(t), AllSound(t), close, rest);
      assert [Meaning(t)] + [] == [Meaning(t)];
    } else {
      var next := Items(tail, d) + close;
      var after := ",\n" + next;
      ValueShown(t, d, after);
      ElementsShown(tail, d, close, rest);
      PairText(Indent(d), shown, Items(tail, d), close);
      FirstItem(line, d, shown + after, Meaning(t), AllSound(t), next, MeaningItems(tail), rest, EachSound(tail));
    }
  }

  /** An object with members, and one without. */
  lemma ObjectRead(d: nat, inner: string, ms: seq<(string, Json)>, rest: string, sound: bool)
    requires Next(inner, '"') && ReadsBack(Pairs(inner), ms, rest, sound)
    ensures ReadsBack(Value("\n" + Indent(d) + "{\n" + inner), Obj(ms), rest, sound)
  {
    var t := "{\n" + inner;
    Opening(d, "{\n", inner);
    SamePairs(t[1..], inner);
    hide Pairs;
    hide Elements;
    hide Skip;
    hide Indent;
  }

  lemma EmptyObject(d: nat, close: string, rest: string)
    requires Closes(close, '}', rest)
    ensures Value("\n" + Indent(d) + "{\n" + close) == Got(Obj([]), rest)
  {
    Opening(d, "{\n", close);
    hide Pairs;
    hide Elements;
    assert Skip(close)[1..] == rest;
    hide Skip;
    hide Indent;
  }

  lemma ArrayRead(d: nat, inner: string, vs: seq<Json>, rest: string, sound: bool)
    requires ReadsBack(Elements(inner), vs, rest, sound) && vs != []
    ensures ReadsBack(Value("\n" + Indent(d) + "[\n" + inner), List(vs), rest, sound)
  {
    var t := "[\n" + inner;
    Opening(d, "[\n", inner);
    SameElements(t[1..], inner);
    if Next(inner, ']') { NoItem(inner); }
    hide Pairs;
    hide Elements;
    hide Skip;
    hide Indent;
  }

  lemma EmptyArray(d: nat, close: string, rest: string)
    requires Closes(close, ']', rest)
    ensures Value("\n" + Indent(d) + "[\n" + close) == Got(List([]), rest)
  {
    Opening(d, "[\n", close);
    hide Pairs;
    hide Elements;
    assert Skip(close)[1..] == rest;
    hide Skip;
    hide Indent;
  }

  lemma NoItem(s: string)
    requires Next(s, ']')
    ensures Elements(s) == Bad
  {
    ElementsStep(s);
    hide Elements;
    hide Pairs;
    hide Chars;
    hide NumberOf;
  }

  lemma Opening(d: nat, bracket: string, inner: string)
    requires |bracket| == 2 && !IsSpace(bracket[0]) && bracket[1] == '\n'
    ensures var t := bracket + inner;
            Skip("\n" + Indent(d) + bracket + inner) == t && t[0] == bracket[0] && Skip(t[1..]) == Skip(inner)
  {
    var t := bracket + inner;
    assert "\n" + Indent(d) + bracket + inner == "\n" + Indent(d) + t;
    SkipLine(d, t);
    Spaceless(t);
    assert t[1..] == "\n" + inner;
    assert ("\n" + inner)[1..] == inner;
  }

  lemma {:induction false} ValueShown(t: Tree, d: nat, rest: string)
    requires WellFormed(t) && Ends(rest)
    ensures ReadsBack(Value(Show(t, d) + rest), Meaning(t), rest, AllSound(t))
    decreases t, 1
  {
    hide Value;
    hide Pairs;
    hide Elements;
    hide Indent;
    hide Closes;
    match t
    case Leaf(e) =>
      if e.EString? { StringRead(e.s, rest); } else { ScalarRead(e, rest); }
    case Map(kids) => MapShown(kids, d, rest);
    case Arr(kids) => ArrShown(kids, d, rest);
  }

  lemma {:induction false} MapShown(kids: Trees, d: nat, rest: string)
    requires WellFormed(Map(kids))
    ensures ReadsBack(Value(Show(Map(kids), d) + rest), Obj(MeaningPairs(kids)), rest, EachSound(kids))
    decreases kids, 1
  {
    hide Value;
    hide Pairs;
    hide Indent;
    hide Closes;
    hide Ends;
    hide ReadsBack;
    var close, inner := "\n" + Indent(d) + "}" + rest, Members(kids, d + 1);
    ClosingLine(d, '}', rest);
    ShownText("\n" + Indent(d) + "{\n", inner, Indent(d), "}", rest);
    if kids == Nil {
      EmptyObject(d, close, rest);
      IsEmpty(Value("\n" + Indent(d) + "{\n" + close), Obj([]), rest);
      assert inner + close == close;
    } else {
      PairsShown(kids, d + 1, close, rest);
      ObjectRead(d, inner + close, MeaningPairs(kids), rest, EachSound(kids));
    }
  }

  lemma {:induction false} ArrShown(kids: Trees, d: nat, rest: string)
    requires AllWellFormed(kids)
    ensures ReadsBack(Value(Show(Arr(kids), d) + rest), List(MeaningItems(kids)), rest, EachSound(kids))
    decreases kids, 1
  {
    hide Value;
    hide Elements;
    hide Indent;
    hide Closes;
    hide Ends;
    hide ReadsBack;
    var close, inner := "\n" + Indent(d) + "]" + rest, Items(kids, d + 1);
    ClosingLine(d, ']', rest);
    ShownText("\n" + Indent(d) + "[\n", inner, Indent(d), "]", rest);
    if kids == Nil {
      EmptyArray(d, close, rest);
      IsEmpty(Value("\n" + Indent(d) + "[\n" + close), List([]), rest);
      assert inner + close == close;
    } else {
      ElementsShown(kids, d + 1, close, rest);
      ArrayRead(d, inner + close, MeaningItems(kids), rest, EachSound(kids));
    }
  }

  lemma IsEmpty(r: Got<Json>, v: Json, rest: string)
    requires r == Got(v, rest)
    ensures ReadsBack(r, v, rest, true)
  {}

  lemma ShownText(start: string, inner: string, indent: string, bracket: string, rest: string)
    ensures start + inner + "\n" + indent + bracket + rest == start + (inner + ("\n" + indent + bracket + rest))
  {}

  /** What `to_json` prints is JSON text for the record if and only if the record is no bare
      text and needs no escape, no sign and no infinity anywhere. */
  lemma ReadsBackIff(t: Tree)
    requires WellFormed(t)
    ensures Read(Root(t)) == Some(Meaning(t)) <==> AllSound(t) && !IsText(t)
  {
    hide Value;
    hide Show;
    if IsText(t) {
      StringRead(t.e.s, " : ");
      assert Root(t) == Quote(t.e.s) + " : ";
      assert Skip(" : ") == Skip(": ");
    } else {
      ValueShown(t, 0, "");
      assert Show(t, 0) + "" == Show(t, 0);
    }
  }

  /** The layout, on the record of `{"a": [true, 5]}`: four spaces a level, a bracket on a line of
      its own, a comma at the end of a line. */
  lemma Layout()
    ensures var items := Cons(Leaf(EBool(true)), Cons(Leaf(ENumber(5)), Nil));
            var kids := Cons(Leaf(EString("a")), Cons(Arr(items), Nil));
            WellFormed(Map(kids)) &&
            Root(Map(kids)) == "\n{\n" +
                               "    \"a\" : \n" +
                               "    [\n" +
                               "        true,\n" +
                               "        5\n" +
                               "    ]\n" +
                               "}"
  {
    var items := Cons(Leaf(EBool(true)), Cons(Leaf(ENumber(5)), Nil));
    var kids := Cons(Leaf(EString("a")), Cons(Arr(items), Nil));
    hide *;
    LayoutItems(items);
    LayoutArray(items);
    LayoutMap(items, kids);
  }

  lemma LayoutItems(items: Trees)
    requires items == Cons(Leaf(EBool(true)), Cons(Leaf(ENumber(5)), Nil))
    ensures AllWellFormed(items) && Items(items, 2) == "        true,\n" + "        5"
  {
    assert Show(items.head, 2) == "true" && Show(items.tail.head, 2) == "5";
    hide Show;
    var deep := Indent(2);
    assert deep == "        ";
    hide Indent;
    assert Items(items.tail, 2) == deep + "5" + "";
    assert Items(items, 2) == deep + "true" + (",\n" + Items(items.tail, 2));
    hide Items;
    assert deep + "true" + (",\n" + (deep + "5" + "")) == (deep + "true,\n") + (deep + "5");
  }

  lemma LayoutArray(items: Trees)
    requires AllWellFormed(items) && Items(items, 2) == "        true,\n" + "        5"
    ensures Show(Arr(items), 1) == "\n" + "    [\n" + "        true,\n" + "        5\n" + "    ]"
  {
    var inner, in1, one := Items(items, 2), Indent(1), "        true,\n";
    assert in1 == "    ";
    assert Show(Arr(items), 1) == "\n" + in1 + "[\n" + inner + "\n" + in1 + "]";
    hide *;
    assert "        5" + "\n" == "        5\n";
    assert in1 + "[\n" == "    [\n" && in1 + "]" == "    ]";
    var five, first, last := "        5", "    [\n", "    ]";
    assert "\n" + in1 + "[\n" + (one + five) + "\n" + in1 + "]" ==
           "\n" + (in1 + "[\n") + one + (five + "\n") + (in1 + "]");
  }

  lemma LayoutMap(items: Trees, kids: Trees)
    requires AllWellFormed(items) && kids == Cons(Leaf(EString("a")), Cons(Arr(items), Nil))
    requires Show(Arr(items), 1) == "\n" + "    [\n" + "        true,\n" + "        5\n" + "    ]"
    ensures WellFormed(Map(kids))
    ensures Root(Map(kids)) ==
            "\n{\n" + "    \"a\" : \n" + "    [\n" + "        true,\n" + "        5\n" + "    ]\n" + "}"
  {
    var arr, in1, key := Show(Arr(items), 1), Indent(1), Quote("a") + " : ";
    assert Indent(0) == "" && in1 == "    " && key == "\"a\" : ";
    assert Count(kids.tail) == 1 && Paired(kids.tail.tail) && WellFormed(kids.tail.head) && WellFormed(Map(kids));
    hide Show;
    var members := Members(kids, 1);
    assert members == in1 + key + arr;
    assert Show(Map(kids), 0) == "\n" + "" + "{\n" + members + "\n" + "" + "}";
    hide *;
    LayoutText(in1, key, "    [\n", "        true,\n", "        5\n", "    ]");
  }

  lemma LayoutText(in1: string, key: string, first: string, one: string, two: string, last: string)
    requires in1 == "    " && key == "\"a\" : " && last == "    ]"
    ensures "\n" + "" + "{\n" + (in1 + key + ("\n" + first + one + two + last)) + "\n" + "" + "}" ==
            "\n{\n" + "    \"a\" : \n" + first + one + two + "    ]\n" + "}"
  {
    assert in1 + key + "\n" == "    \"a\" : \n" && last + "\n" == "    ]\n" && "\n" + "{\n" == "\n{\n";
    var line, end := in1 + key + "\n", last + "\n";
    assert in1 + key + ("\n" + first + one + two + last) == line + first + one + two + last;
  }
}
