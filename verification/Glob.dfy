/** `Utils::Match`, the wildcard matcher behind channel bans. */
module Glob {

  /** Past the terminator of the text the C code reads memory it does not own:
      that outcome is kept apart from a plain yes or no. */
  datatype Verdict = Yes | No | Undefined

  /** The matcher, branch by branch; the end of a sequence is the NUL of the C string. */
  function Match(p: string, t: string): Verdict
    decreases |p| + |t|
  {
    if p == "" && t == "" then Yes
    else if p != "" && p[0] == '*' && |p| > 1 && t == "" then No
    else if p != "" && p[0] == '?' && t == "" then Undefined
    else if p != "" && t != "" && (p[0] == '?' || p[0] == t[0]) then Match(p[1..], t[1..])
    else if p != "" && p[0] == '*' then
      var here := Match(p[1..], t);
      if here == No && t != "" then Match(p, t[1..]) else here
    else No
  }

  /** What a mask means: `*` stands for any run of characters, `?` for any one. */
  ghost predicate Wild(p: string, t: string)
    decreases |p|
  {
    if p == "" then t == ""
    else if p[0] == '*' then exists k :: 0 <= k <= |t| && Wild(p[1..], t[k..])
    else t != "" && (p[0] == '?' || p[0] == t[0]) && Wild(p[1..], t[1..])
  }

  predicate NoStar(s: string) { '*' !in s }

  predicate NoQuestion(s: string) { '?' !in s }

  /** The mask does not end in `**`. */
  predicate PlainEnd(s: string) { |s| >= 2 ==> !(s[|s| - 1] == '*' && s[|s| - 2] == '*') }

  lemma WildStarSkip(p: string, t: string)
    requires p != "" && p[0] == '*' && t != "" && Wild(p, t[1..])
    ensures Wild(p, t)
  {
    var k :| 0 <= k <= |t[1..]| && Wild(p[1..], t[1..][k..]);
    assert t[1..][k..] == t[k + 1..];
  }

  lemma WildStarNow(p: string, t: string)
    requires p != "" && p[0] == '*' && Wild(p[1..], t)
    ensures Wild(p, t)
  {
    assert t[0..] == t;
  }

  /** A yes is always right, whatever the mask and the text contain. */
  lemma {:induction false} MatchSound(p: string, t: string)
    requires Match(p, t) == Yes
    ensures Wild(p, t)
    decreases |p| + |t|
  {
    if p != "" {
      if t != "" && (p[0] == '?' || p[0] == t[0]) {
        MatchSound(p[1..], t[1..]);
        if p[0] == '*' { assert t[1..] == t[1..][0..]; WildStarNow(p, t[1..]); WildStarSkip(p, t); }
      } else if p[0] == '*' {
        if Match(p[1..], t) == Yes {
          MatchSound(p[1..], t);
          WildStarNow(p, t);
        } else {
          MatchSound(p, t[1..]);
          WildStarSkip(p, t);
        }
      }
    }
  }

  lemma {:induction false} WildEmptyIsStars(p: string)
    requires Wild(p, "")
    ensures forall i :: 0 <= i < |p| ==> p[i] == '*'
  {
    if p != "" {
      assert forall k :: 0 <= k <= |""| ==> ""[k..] == "";
      WildEmptyIsStars(p[1..]);
      assert forall i :: 1 <= i < |p| ==> p[i] == p[1..][i - 1];
    }
  }

  /** A no is right when the mask does not end in `**` and the text has no `*`. */
  lemma {:induction false} NoIsRight(p: string, t: string)
    requires PlainEnd(p) && NoStar(t)
    requires Match(p, t) == No
    ensures !Wild(p, t)
    decreases |p| + |t|
  {
    if p != "" {
      if p[0] == '*' {
        if t == "" {
          if Wild(p, t) { WildEmptyIsStars(p); }
        } else {
          NoIsRight(p[1..], t);
          NoIsRight(p, t[1..]);
          forall k | 0 <= k <= |t| ensures !Wild(p[1..], t[k..]) {
            if k == 0 { assert t[0..] == t; } else { assert t[k..] == t[1..][k - 1..]; }
          }
        }
      } else if t != "" && (p[0] == '?' || p[0] == t[0]) {
        NoIsRight(p[1..], t[1..]);
      }
    }
  }

  lemma {:induction false} WildStarSkips(p: string, t: string, k: nat)
    requires p != "" && p[0] == '*' && k <= |t| && Wild(p, t[k..])
    ensures Wild(p, t)
  {
    if k == 0 { assert t[0..] == t; }
    else { assert t[1..][k - 1..] == t[k..]; WildStarSkips(p, t[1..], k - 1); WildStarSkip(p, t); }
  }

  lemma {:induction false} UndefinedOnSuffixes(p: string, t: string, k: nat)
    requires Match(p, t) == Undefined && !Wild(p, t) && k <= |t|
    ensures !Wild(p, t[k..])
    decreases |p|
  {
    if p[0] == '*' {
      if Wild(p, t[k..]) { WildStarSkips(p, t, k); }
    } else if t == "" {
      assert t[k..] == t;
    } else if k < |t| {
      UndefinedOnSuffixes(p[1..], t[1..], k);
      assert t[k..][1..] == t[1..][k..];
    }
  }

  /** A mask that does not end in `**` runs past the terminator only on texts it does not mean,
      among those without `*`. */
  lemma {:induction false} UndefinedIsNoMatch(p: string, t: string)
    requires PlainEnd(p) && NoStar(t)
    requires Match(p, t) == Undefined
    ensures !Wild(p, t)
    decreases |p| + |t|
  {
    if p[0] == '*' {
      if Match(p[1..], t) == Undefined {
        UndefinedIsNoMatch(p[1..], t);
        forall k | 0 <= k <= |t| ensures !Wild(p[1..], t[k..]) { UndefinedOnSuffixes(p[1..], t, k); }
      } else {
        NoIsRight(p[1..], t);
        UndefinedIsNoMatch(p, t[1..]);
        forall k | 0 <= k <= |t| ensures !Wild(p[1..], t[k..]) {
          if k == 0 { assert t[0..] == t; } else { assert t[k..] == t[1..][k - 1..]; }
        }
      }
    } else if t != "" {
      UndefinedIsNoMatch(p[1..], t[1..]);
    }
  }

  /** A mask ending in `**` runs past the terminator of a user text that it means. */
  lemma DoubleStarOverrunsMeant()
    ensures Match("*a?**", "aa") == Undefined && Wild("*a?**", "aa")
  {
    assert "*a?**"[1..] == "a?**" && "a?**"[1..] == "?**" && "?**"[1..] == "**" && "**"[1..] == "*" && "*"[1..] == "";
    assert "aa"[1..] == "a" && "a"[1..] == "" && "aa"[0..] == "aa" && ""[0..] == "";
    assert Match("?**", "") == Undefined && Match("?**", "a") == No;
    assert Match("a?**", "aa") == No && Match("a?**", "a") == Undefined;
    assert Match("*a?**", "a") == Undefined;
    assert Wild("*", "") && Wild("**", "") && Wild("?**", "a") && Wild("a?**", "aa");
  }

  /** Any mask with a `?` after its star may do so on a text with `*`, such as another mask. */
  lemma StarOverrunsMeant()
    ensures Match("*?", "*") == Undefined && Wild("*?", "*")
  {
    assert "*?"[1..] == "?" && "?"[1..] == "" && "*"[1..] == "" && "*"[0..] == "*";
    assert Wild("?", "*");
  }

  /** The matcher says yes on exactly the texts its mask means. */
  lemma MatchIsWild(p: string, t: string)
    requires PlainEnd(p) && NoStar(t)
    ensures Match(p, t) == Yes <==> Wild(p, t)
  {
    match Match(p, t)
    case Yes => MatchSound(p, t);
    case No => NoIsRight(p, t);
    case Undefined => UndefinedIsNoMatch(p, t);
  }

  lemma {:induction false} DefinedWithoutQuestion(p: string, t: string)
    requires NoQuestion(p)
    ensures Match(p, t) != Undefined
    decreases |p| + |t|
  {
    if p != "" {
      assert p[0] in p;
      DefinedWithoutQuestion(p[1..], t);
      if t != "" {
        DefinedWithoutQuestion(p[1..], t[1..]);
        DefinedWithoutQuestion(p, t[1..]);
      }
    }
  }

  /** The shortest text a mask means. */
  function Shortest(p: string): (t: string)
    ensures NoStar(t)
  {
    if p == "" then "" else if p[0] == '*' then Shortest(p[1..])
    else [if p[0] == '?' then 'x' else p[0]] + Shortest(p[1..])
  }

  lemma {:induction false} MeansShortest(p: string)
    ensures Wild(p, Shortest(p))
  {
    if p != "" {
      MeansShortest(p[1..]);
      if p[0] == '*' { WildStarNow(p, Shortest(p)); }
    }
  }

  /** A mask ending in `**` only matches longer texts. */
  lemma {:induction false} DoubleStarWantsMore(p: string, t: string)
    requires !PlainEnd(p) && NoStar(t) && Match(p, t) == Yes
    ensures |t| > |Shortest(p)|
    decreases |p| + |t|
  {
    if p[0] == '*' {
      if Match(p[1..], t) == Yes {
        if |p| > 2 { DoubleStarWantsMore(p[1..], t); } else { assert p[1..] == "*" && Shortest("*") == ""; }
      } else {
        DoubleStarWantsMore(p, t[1..]);
      }
    } else {
      DoubleStarWantsMore(p[1..], t[1..]);
    }
  }

  /** The matcher decides what a mask means, on all texts without `*`, if and only if the
      mask does not end in `**`. */
  lemma MatcherExact(p: string)
    ensures (forall t | NoStar(t) :: Match(p, t) == Yes <==> Wild(p, t)) <==> PlainEnd(p)
  {
    if PlainEnd(p) {
      forall t | NoStar(t) ensures Match(p, t) == Yes <==> Wild(p, t) { MatchIsWild(p, t); }
    } else {
      var t := Shortest(p);
      MeansShortest(p);
      if Match(p, t) == Yes { DoubleStarWantsMore(p, t); }
      assert !(Match(p, t) == Yes <==> Wild(p, t));
    }
  }

  /** The first `?` of a mask, and the part of the mask before it. */
  lemma {:induction false} FirstQuestion(p: string) returns (i: nat)
    requires !NoQuestion(p)
    ensures i < |p| && p[i] == '?' && NoQuestion(p[..i])
  {
    i := 0;
    while p[i] != '?'
      invariant i < |p| && NoQuestion(p[..i]) && '?' in p[i..]
      decreases |p| - i
    {
      assert p[i..] == [p[i]] + p[i + 1..] && p[..i + 1] == p[..i] + [p[i]];
      i := i + 1;
    }
  }

  lemma {:induction false} OverrunsItself(p: string, i: nat)
    requires i < |p| && p[i] == '?' && NoQuestion(p[..i])
    ensures Match(p, p[..i]) == Undefined
  {
    if i > 0 {
      assert p[..i][1..] == p[1..][..i - 1] && p[..i][0] == p[0];
      OverrunsItself(p[1..], i - 1);
    }
  }

  /** On some text the matcher steps past the terminator if and only if the mask has a `?`. */
  lemma ReadsPastEndIffQuestion(p: string)
    ensures (forall t :: Match(p, t) != Undefined) <==> NoQuestion(p)
  {
    if NoQuestion(p) {
      forall t ensures Match(p, t) != Undefined { DefinedWithoutQuestion(p, t); }
    } else {
      var i := FirstQuestion(p);
      OverrunsItself(p, i);
    }
  }

  /** Every `?` stands right after a `*`. */
  predicate Guarded(p: string) {
    (p != "" ==> p[0] != '?') &&
    forall i, j :: 0 <= i < |p| && 0 <= j < |p| && j == i + 1 && p[j] == '?' ==> p[i] == '*'
  }

  /** A guarded mask, or what follows its star on a text that goes on. */
  lemma {:induction false} GuardedIsDefined(p: string, t: string)
    requires NoStar(t) && (Guarded(p) || (p != "" && p[0] == '?' && t != "" && Guarded(p[1..])))
    ensures Match(p, t) != Undefined
    decreases |p| + |t|
  {
    if p != "" && t != "" {
      if p[0] == '?' {
        GuardedIsDefined(p[1..], t[1..]);
      } else if p[0] == t[0] {
        GuardedTail(p);
        GuardedIsDefined(p[1..], t[1..]);
      } else if p[0] == '*' {
        GuardedTail(p);
        GuardedIsDefined(p[1..], t);
        GuardedIsDefined(p, t[1..]);
      }
    }
  }

  lemma GuardedTail(p: string)
    requires p != "" && Guarded(p)
    ensures p[0] != '*' ==> Guarded(p[1..])
    ensures Guarded(p[1..]) || (|p| > 1 && p[1] == '?' && Guarded(p[2..]))
  {
    var q := p[1..];
    assert forall i :: 0 <= i < |q| ==> q[i] == p[i + 1];
    if |q| > 0 {
      assert forall i :: 0 <= i < |q| - 1 ==> p[2..][i] == p[i + 2];
      assert q[1..] == p[2..];
    }
  }

  lemma {:induction false} OverrunsShortest(p: string, i: nat)
    requires i < |p| && p[i] == '?' && (i > 0 ==> p[i - 1] != '*')
    ensures Match(p, Shortest(p[..i])) == Undefined
  {
    if i > 0 {
      var t := Shortest(p[..i]);
      assert p[..i][1..] == p[1..][..i - 1] && p[..i][0] == p[0];
      OverrunsShortest(p[1..], i - 1);
      LastCounts(p[..i]);
    }
  }

  lemma {:induction false} LastCounts(p: string)
    requires p != "" && p[|p| - 1] != '*'
    ensures Shortest(p) != ""
  {
    if p[0] == '*' {
      assert p[1..][|p| - 2] == p[|p| - 1];
      LastCounts(p[1..]);
    }
  }

  /** On some text of a user, which has no `*`, it does so if and only if some `?` of the mask
      does not stand right after a `*`. */
  lemma ReadsPastUserTextIff(p: string)
    ensures (forall t | NoStar(t) :: Match(p, t) != Undefined) <==> Guarded(p)
  {
    if Guarded(p) {
      forall t | NoStar(t) ensures Match(p, t) != Undefined { GuardedIsDefined(p, t); }
    } else {
      var i :| 0 <= i < |p| && p[i] == '?' && (i > 0 ==> p[i - 1] != '*');
      OverrunsShortest(p, i);
    }
  }

  /** Every mask matches itself as text: a ban is always found to exist already. */
  lemma {:induction false} MatchReflexive(p: string)
    ensures Match(p, p) == Yes
  {
    if p != "" { MatchReflexive(p[1..]); }
  }

  lemma {:induction false} WildSubsumes(b: string, m: string, t: string)
    requires NoQuestion(b)
    requires Match(b, m) == Yes && Wild(m, t)
    ensures Wild(b, t)
    decreases |b| + |m|
  {
    if b != "" {
      assert b[0] in b;
      if m != "" && b[0] == m[0] {
        if b[0] == '*' {
          var k :| 0 <= k <= |t| && Wild(m[1..], t[k..]);
          WildSubsumes(b[1..], m[1..], t[k..]);
        } else {
          WildSubsumes(b[1..], m[1..], t[1..]);
        }
      } else if b[0] == '*' {
        if Match(b[1..], m) == Yes {
          WildSubsumes(b[1..], m, t);
          WildStarNow(b, t);
        } else {
          assert m != "" && m[0] != '*';
          WildSubsumes(b, m[1..], t[1..]);
          WildStarSkip(b, t);
        }
      }
    }
  }

  /** Subsumption: when an existing mask `b` matches a new mask `m` read as plain
      text, it already matches every text that `m` matches as a mask. */
  lemma Subsumption(b: string, m: string, t: string)
    requires NoQuestion(b) && PlainEnd(b) && NoStar(t)
    requires Match(b, m) == Yes && Match(m, t) == Yes
    ensures Match(b, t) == Yes
  {
    MatchSound(m, t);
    WildSubsumes(b, m, t);
    MatchIsWild(b, t);
  }

  /** The mask ends in two stars and no more. */
  predicate TwoStarEnd(b: string) { !PlainEnd(b) && (|b| > 2 ==> b[|b| - 3] != '*') }

  predicate ThreeStarEnd(b: string) { |b| > 2 && b[|b| - 1] == '*' && b[|b| - 2] == '*' && b[|b| - 3] == '*' }

  lemma {:induction false} StarMatches(t: string)
    requires NoStar(t)
    ensures Match("*", t) == Yes
  {
    assert "*"[1..] == "";
    if t != "" { StarMatches(t[1..]); }
  }

  /** Three stars match every text but the empty one, and no mask that means that one. */
  lemma ThreeStars(m: string, t: string)
    requires NoStar(t) && Match("***", m) == Yes && Match(m, t) == Yes
    ensures Match("***", t) == Yes
  {
    assert "***"[1..] == "**" && "**"[1..] == "*" && "*"[1..] == "";
    assert t != "" by {
      assert m != "";
      if m[0] == '*' { assert Match("**", m[1..]) == Yes; }
    }
    StarMatches(t);
    assert Match("**", t) == Yes;
  }

  /** A star that matches leaves the rest of its mask to match some rest of the text. */
  lemma {:induction false} StarSplit(m: string, t: string) returns (k: nat)
    requires m != "" && m[0] == '*' && NoStar(t) && Match(m, t) == Yes
    ensures k <= |t| && Match(m[1..], t[k..]) == Yes
  {
    if Match(m[1..], t) == Yes {
      k := 0;
      assert t[0..] == t;
    } else {
      var rest := StarSplit(m, t[1..]);
      k := rest + 1;
      assert t[1..][rest..] == t[k..];
    }
  }

  lemma {:induction false} StarJoin(b: string, t: string, k: nat)
    requires |b| > 2 && b[0] == '*' && NoQuestion(b) && NoStar(t) && k <= |t|
    requires Match(b[1..], t[k..]) == Yes
    ensures Match(b, t) == Yes
    decreases k
  {
    DefinedWithoutQuestion(b[1..], t);
    if k == 0 {
      assert t[0..] == t;
    } else {
      assert t[1..][k - 1..] == t[k..];
      StarJoin(b, t[1..], k - 1);
    }
  }

  lemma {:induction false} ThreeStarsSubsume(b: string, m: string, t: string)
    requires NoQuestion(b) && ThreeStarEnd(b) && NoStar(t)
    requires Match(b, m) == Yes && Match(m, t) == Yes
    ensures Match(b, t) == Yes
    decreases |b| + |m|
  {
    if |b| == 3 {
      assert b == "***";
      ThreeStars(m, t);
    } else {
      assert b[0] in b;
      if m != "" && b[0] == m[0] {
        if b[0] == '*' {
          var k := StarSplit(m, t);
          ThreeStarsSubsume(b[1..], m[1..], t[k..]);
          StarJoin(b, t, k);
        } else {
          ThreeStarsSubsume(b[1..], m[1..], t[1..]);
        }
      } else if Match(b[1..], m) == Yes {
        ThreeStarsSubsume(b[1..], m, t);
        assert t[0..] == t;
        StarJoin(b, t, 0);
      } else {
        ThreeStarsSubsume(b, m[1..], t[1..]);
        DefinedWithoutQuestion(b[1..], t);
      }
    }
  }

  lemma {:induction false} TwoStarsMatchOne(b: string)
    requires |b| >= 2 && NoQuestion(b) && b[|b| - 1] == '*' && b[|b| - 2] == '*'
    ensures Match(b, b[..|b| - 1]) == Yes
    ensures Shortest(b[..|b| - 1]) == Shortest(b)
  {
    if |b| == 2 {
      assert b == "**" && b[..1] == "*" && "**"[1..] == "*" && "*"[1..] == "";
    } else {
      assert b[..|b| - 1][0] == b[0] && b[..|b| - 1][1..] == b[1..][..|b| - 2];
      TwoStarsMatchOne(b[1..]);
    }
  }

  /** On the answers of the matcher: a `?`-free mask that matches another one as text matches
      every user text that the other one matches, for all of those, if and only if it does not
      end in two stars and no more. */
  lemma SubsumptionIff(b: string)
    requires NoQuestion(b)
    ensures (forall m, t | NoStar(t) && Match(b, m) == Yes && Match(m, t) == Yes :: Match(b, t) == Yes) <==>
            !TwoStarEnd(b)
  {
    if TwoStarEnd(b) {
      var m, t := b[..|b| - 1], Shortest(b);
      TwoStarsMatchOne(b);
      MeansShortest(m);
      MatchIsWild(m, t);
      if Match(b, t) == Yes { DoubleStarWantsMore(b, t); }
    } else {
      forall m, t | NoStar(t) && Match(b, m) == Yes && Match(m, t) == Yes ensures Match(b, t) == Yes {
        if PlainEnd(b) { Subsumption(b, m, t); } else { ThreeStarsSubsume(b, m, t); }
      }
    }
  }

  /** With a `?` in the existing mask subsumption fails: `a?` matches the text `a*`. */
  lemma QuestionBreaksSubsumption()
    ensures Match("a?", "a*") == Yes && Match("a*", "abc") == Yes && Match("a?", "abc") == No
  {
    assert "a?"[1..] == "?" && "a*"[1..] == "*" && "abc"[1..] == "bc" && "?"[1..] == "" && "*"[1..] == "";
    assert "bc"[1..] == "c" && "c"[1..] == "";
    assert Match("", "") == Yes;
    assert Match("*", "") == Yes;
    assert Match("", "c") == No && Match("", "bc") == No;
    assert Match("*", "c") == Yes;
    assert Match("*", "bc") == Yes;
  }

  /** With `**` at its end it fails too. */
  lemma TwoStarsBreakSubsumption()
    ensures Match("a**", "a*") == Yes && Match("a*", "a") == Yes && Match("a**", "a") == No
  {
    assert "a**"[1..] == "**" && "**"[1..] == "*" && "a*"[1..] == "*" && "a"[1..] == "" && "*"[1..] == "";
    assert Match("*", "") == Yes && Match("**", "") == No;
    assert Match("**", "*") == Yes;
  }

  /** The mask with every `?` turned into `*`. */
  function Starred(b: string): (m: string)
    ensures |m| == |b|
  {
    seq(|b|, i requires 0 <= i < |b| => if b[i] == '?' then '*' else b[i])
  }

  lemma {:induction false} StarredMatches(b: string)
    ensures Match(b, Starred(b)) == Yes
    ensures |Shortest(Starred(b))| <= |Shortest(b)|
    ensures !NoQuestion(b) ==> |Shortest(Starred(b))| < |Shortest(b)|
  {
    if b != "" {
      assert Starred(b)[1..] == Starred(b[1..]);
      assert b == [b[0]] + b[1..];
      StarredMatches(b[1..]);
    }
  }

  lemma {:induction false} WildNeedsLength(p: string, t: string)
    requires Wild(p, t)
    ensures |t| >= |Shortest(p)|
    decreases |p|
  {
    if p != "" {
      if p[0] == '*' {
        var k :| 0 <= k <= |t| && Wild(p[1..], t[k..]);
        WildNeedsLength(p[1..], t[k..]);
      } else {
        WildNeedsLength(p[1..], t[1..]);
      }
    }
  }

  /** Matching a mask as text means covering it, for every mask there may be, if and only if
      the existing mask has no `?`. */
  lemma SubsumesIffNoQuestion(b: string)
    ensures (forall m, t | NoStar(t) && Match(b, m) == Yes && Wild(m, t) :: Wild(b, t)) <==> NoQuestion(b)
  {
    if NoQuestion(b) {
      forall m, t | NoStar(t) && Match(b, m) == Yes && Wild(m, t) ensures Wild(b, t) { WildSubsumes(b, m, t); }
    } else {
      var m := Starred(b);
      StarredMatches(b);
      MeansShortest(m);
      if Wild(b, Shortest(m)) { WildNeedsLength(b, Shortest(m)); }
    }
  }
}
