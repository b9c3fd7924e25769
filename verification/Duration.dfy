/** `Utils::PartialTime` prints a duration and `Utils::UnixTime` reads one back. */
module Duration {
  import opened Text

  const DAY := 86400

  /** The largest duration whose day count times 86400 is still a 32-bit int. */
  const LIMIT := (INT_MAX / DAY + 1) * DAY

  function Part(v: nat, unit: string): string { if v != 0 then ToString(v) + unit else "" }

  /** None: `dias * 86400` overflows int. */
  function PartialTime(tiempo: int): Option<string> {
    if tiempo <= 0 then Some("0s")
    else
      var dias := tiempo / DAY;
      if !FitsInt(dias) || !FitsInt(dias * DAY) then None
      else
        var t1 := tiempo - dias * DAY;
        var horas := t1 / 3600;
        var t2 := t1 - horas * 3600;
        var minutos := t2 / 60;
        var segundos := t2 - minutos * 60;
        Some(Part(dias, "d ") + (Part(horas, "h ") + (Part(minutos, "m ") + Part(segundos, "s"))))
  }

  predicate IsUnit(c: char) { c == 's' || c == 'm' || c == 'h' || c == 'd' }

  function UnitOf(c: char): nat { if c == 's' then 1 else if c == 'm' then 60 else if c == 'h' then 3600 else DAY }

  /** The rest of the text read with the digits `cadena` pending; None when stoi throws. */
  function Scan(s: string, cadena: string, tiempo: int): Option<int>
    decreases |s|
  {
    if s == "" then Some(tiempo)
    else if IsUnit(s[0]) then
      match Stoi(cadena)
      case None => None
      case Some(v) => Scan(s[1..], "", tiempo + v * UnitOf(s[0]))
    else if IsDigit(s[0]) then Scan(s[1..], cadena + [s[0]], tiempo)
    else Scan(s[1..], cadena, tiempo)
  }

  /** `Utils::UnixTime`. */
  method UnixTime(time: string) returns (tiempo: Option<int>)
    ensures tiempo == Scan(time, "0", 0)
  {
    var total, cadena := 0, "0";
    var i := 0;
    assert time[0..] == time;
    while i < |time|
      invariant 0 <= i <= |time|
      invariant Scan(time[i..], cadena, total) == Scan(time, "0", 0)
    {
      assert time[i..][0] == time[i] && time[i..][1..] == time[i + 1..];
      if IsUnit(time[i]) {
        var v := Stoi(cadena);
        if v == None { return None; }
        total := total + v.value * UnitOf(time[i]);
        cadena := "";
      } else if IsDigit(time[i]) {
        cadena := cadena + [time[i]];
      }
      i := i + 1;
    }
    assert time[i..] == "";
    tiempo := Some(total);
  }

  lemma {:induction false} ScanDigits(d: string, rest: string, cadena: string, tiempo: int)
    requires AllDigits(d)
    ensures Scan(d + rest, cadena, tiempo) == Scan(rest, cadena + d, tiempo)
    decreases |d|
  {
    if d == "" {
      assert d + rest == rest && cadena + d == cadena;
    } else {
      assert (d + rest)[1..] == d[1..] + rest;
      ScanDigits(d[1..], rest, cadena + [d[0]], tiempo);
      assert cadena + [d[0]] + d[1..] == cadena + d;
    }
  }

  lemma {:induction false} LeadingZero(d: string)
    requires AllDigits(d)
    ensures AllDigits("0" + d) && ValueOf("0" + d) == ValueOf(d)
  {
    var z := "0" + d;
    if d == "" {
      assert z == "0" && z[..0] == "";
    } else {
      LeadingZero(d[..|d| - 1]);
      assert z[..|z| - 1] == "0" + d[..|d| - 1];
    }
  }

  lemma PendingNumber(v: nat, cadena: string)
    requires FitsInt(v) && (cadena == "" || cadena == "0")
    ensures Stoi(cadena + Decimal(v)) == Some(v)
  {
    hide Stoi;
    var d := Decimal(v);
    ValueOfDecimal(v);
    LeadingZero(d);
    StoiOfDigits(d);
    StoiOfDigits("0" + d);
    assert "" + d == d;
  }

  /** A printed field is read back, whether or not the initial zero is still pending. */
  lemma FieldRead(v: nat, unit: string, rest: string, cadena: string, tiempo: int)
    requires 0 < v && FitsInt(v) && unit != "" && IsUnit(unit[0])
    requires cadena == "" || cadena == "0"
    ensures Scan(Part(v, unit) + rest, cadena, tiempo) == Scan(unit[1..] + rest, "", tiempo + v * UnitOf(unit[0]))
  {
    hide Stoi;
    hide Decimal;
    var d, tail := Decimal(v), unit + rest;
    ScanDigits(d, tail, cadena, tiempo);
    assert Part(v, unit) + rest == d + tail;
    assert tail[0] == unit[0] && tail[1..] == unit[1..] + rest;
    PendingNumber(v, cadena);
  }

  lemma SpaceRead(rest: string, cadena: string, tiempo: int)
    ensures Scan(" " + rest, cadena, tiempo) == Scan(rest, cadena, tiempo)
  {
    assert (" " + rest)[1..] == rest;
  }

  /** One field, present or not, followed by the rest of the text. */
  lemma PartRead(v: nat, unit: string, rest: string, cadena: string, tiempo: int)
    requires FitsInt(v) && (unit == "d " || unit == "h " || unit == "m " || unit == "s")
    requires cadena == "" || cadena == "0"
    ensures Scan(Part(v, unit) + rest, cadena, tiempo) ==
            Scan(rest, if v == 0 then cadena else "", tiempo + v * UnitOf(unit[0]))
  {
    if v == 0 {
      assert Part(v, unit) + rest == rest;
    } else {
      FieldRead(v, unit, rest, cadena, tiempo);
      SpaceRead(rest, "", tiempo + v * UnitOf(unit[0]));
      assert "" + rest == rest;
    }
  }

  /** The four fields of a duration, read in turn. */
  lemma FieldsRead(d: nat, h: nat, m: nat, s: nat)
    requires FitsInt(d) && FitsInt(h) && FitsInt(m) && FitsInt(s)
    ensures Scan(Part(d, "d ") + (Part(h, "h ") + (Part(m, "m ") + Part(s, "s"))), "0", 0) ==
            Some(d * DAY + h * 3600 + m * 60 + s)
  {
    hide Part;
    var ss := Part(s, "s");
    var ms := Part(m, "m ") + ss;
    var hms := Part(h, "h ") + ms;
    PartRead(d, "d ", hms, "0", 0);
    var c1 := if d == 0 then "0" else "";
    PartRead(h, "h ", ms, c1, d * DAY);
    var c2 := if h == 0 then c1 else "";
    PartRead(m, "m ", ss, c2, d * DAY + h * 3600);
    var c3 := if m == 0 then c2 else "";
    PartRead(s, "s", "", c3, d * DAY + h * 3600 + m * 60);
    assert ss + "" == ss;
  }

  lemma NoTimeRead()
    ensures Scan("0s", "0", 0) == Some(0)
  {
    PartRead(0, "s", "", "0", 0);
    PendingNumber(0, "0");
    assert "0" + Decimal(0) == "00";
    ScanDigits("0", "s", "0", 0);
    assert "0" + "s" == "0s" && "s"[1..] == "";
  }

  /** Reading a printed duration gives it back, for every duration that can be printed;
      it can be printed exactly below LIMIT. */
  lemma DurationRoundTrip(t: int)
    ensures PartialTime(t).Some? <==> t < LIMIT
    ensures PartialTime(t).Some? ==> Scan(PartialTime(t).value, "0", 0) == Some(if t > 0 then t else 0)
  {
    hide Part;
    hide Scan;
    NoTimeRead();
    if 0 < t < LIMIT {
      var d, t1 := t / DAY, t % DAY;
      var h, t2 := t1 / 3600, t1 % 3600;
      FieldsRead(d, h, t2 / 60, t2 % 60);
    }
  }

  /** The first duration that cannot be printed. */
  lemma FirstOverflow()
    ensures LIMIT == 2147558400 && PartialTime(LIMIT) == None && PartialTime(LIMIT - 1).Some?
  {}

  /** What is printed, in full: days, hours, minutes and seconds, each with its letter, those that
      are zero left out, and a blank after all but the seconds. */
  lemma PrintedIs(d: nat, h: nat, m: nat, s: nat)
    requires h < 24 && m < 60 && s < 60 && (d > 0 || h > 0 || m > 0 || s > 0) && d < 24856
    ensures PartialTime(86400 * d + 3600 * h + 60 * m + s) ==
            Some((if d == 0 then "" else Decimal(d) + "d ") + ((if h == 0 then "" else Decimal(h) + "h ") +
                 ((if m == 0 then "" else Decimal(m) + "m ") + if s == 0 then "" else Decimal(s) + "s")))
  {
    hide *;
    SplitIs(d, h, m, s);
    FieldsIs(86400 * d + 3600 * h + 60 * m + s, d, 3600 * h + 60 * m + s, h, 60 * m + s, m, s);
    PartIs(d, "d ");
    PartIs(h, "h ");
    PartIs(m, "m ");
    PartIs(s, "s");
  }

  lemma FieldsIs(t: nat, d: nat, t1: nat, h: nat, t2: nat, m: nat, s: nat)
    requires 0 < t && d < 24856 && t / 86400 == d && t == 86400 * d + t1
    requires t1 / 3600 == h && t1 == 3600 * h + t2 && t2 / 60 == m && t2 == 60 * m + s
    ensures PartialTime(t) == Some(Part(d, "d ") + (Part(h, "h ") + (Part(m, "m ") + Part(s, "s"))))
  {
    hide Part;
  }

  lemma PartIs(v: nat, unit: string)
    ensures Part(v, unit) == if v == 0 then "" else Decimal(v) + unit
  {}

  lemma SplitIs(d: nat, h: nat, m: nat, s: nat)
    requires h < 24 && m < 60 && s < 60
    ensures (86400 * d + 3600 * h + 60 * m + s) / 86400 == d
    ensures (3600 * h + 60 * m + s) / 3600 == h && (60 * m + s) / 60 == m
  {}

  /** A number in front of each letter: a day has 86400 seconds, an hour 3600, a minute 60. */
  lemma UnitIs(v: nat)
    requires FitsInt(v)
    ensures Scan(Decimal(v) + "d", "0", 0) == Some(86400 * v) && Scan(Decimal(v) + "h", "0", 0) == Some(3600 * v)
    ensures Scan(Decimal(v) + "m", "0", 0) == Some(60 * v) && Scan(Decimal(v) + "s", "0", 0) == Some(v)
  {
    UnitRead(v, "d");
    UnitRead(v, "h");
    UnitRead(v, "m");
    UnitRead(v, "s");
  }

  lemma UnitRead(v: nat, unit: string)
    requires FitsInt(v) && |unit| == 1 && IsUnit(unit[0])
    ensures Scan(Decimal(v) + unit, "0", 0) == Some(v * UnitOf(unit[0]))
  {
    hide Stoi;
    hide Decimal;
    ScanDigits(Decimal(v), unit, "0", 0);
    PendingNumber(v, "0");
    assert unit[1..] == "";
  }
}
