/** What a channel holds and how every rank-changing command moves it: MODE,
    the ChanServ rank commands and ChanServ's automatic modes.
    Members are named by their key in the nick table, the lower-cased nick. */
module ChannelState {
  import opened Text
  import opened Glob

  datatype Ban = Ban(mask: string, who: string, when: int)

  datatype Rank = Op | Half | Voice

  /** `bans` and `pbans` are pointer sets in the source; the sequence is their iteration order.
      `orphaned`: one of the rank sets still points at a user that has gone. */
  datatype Chan = Chan(users: set<string>, ops: set<string>, halfs: set<string>, voices: set<string>,
                       bans: seq<Ban>, pbans: seq<Ban>, orphaned: bool)
  {
    function Holders(r: Rank): set<string> {
      match r case Op => ops case Half => halfs case Voice => voices
    }

    function With(r: Rank, s: set<string>): Chan {
      match r case Op => this.(ops := s) case Half => this.(halfs := s) case Voice => this.(voices := s)
    }

    /** `RemoveUser`: out of the member set and of every rank set. */
    function Without(u: string): Chan {
      this.(users := users - {u}, ops := ops - {u}, halfs := halfs - {u}, voices := voices - {u})
    }

    /** What a user leaves that goes without `RemoveUser`: nobody's rank, if it held one. */
    function Deserted(u: string): Chan {
      Without(u).(orphaned := orphaned || u in ops || u in halfs || u in voices)
    }

    predicate Ranked() { ops <= users && halfs <= users && voices <= users }

    /** Ranks are held by users of a nick table. */
    predicate Known(table: set<string>) { ops <= table && halfs <= table && voices <= table }

    predicate Exclusive() { ops !! halfs && ops !! voices && halfs !! voices }
  }

  const EMPTY := Chan({}, {}, {}, {}, [], [], false)

  // ---------------------------------------------------------------- bans

  function BanScan(bans: seq<Ban>, mask: string): Verdict {
    if bans == [] then No
    else var v := Match(Lower(bans[0].mask), mask); if v == No then BanScan(bans[1..], mask) else v
  }

  /** `Channel::IsBan`: an empty channel bans nobody; the first ban that is not a no decides. */
  function IsBan(ch: Chan, mask: string): Verdict {
    if ch.users == {} then No
    else
      var v := BanScan(ch.bans, Lower(mask));
      if v == No then BanScan(ch.pbans, Lower(mask)) else v
  }

  predicate Clean(mask: string) { NoQuestion(mask) && PlainEnd(mask) }

  predicate AllNoQuestion(bans: seq<Ban>) { forall b :: b in bans ==> NoQuestion(b.mask) }

  predicate AllClean(bans: seq<Ban>) { forall b :: b in bans ==> Clean(b.mask) }

  /** Decided rightly, and without reading past the end, on every text of a user. */
  predicate Decided(mask: string) { Guarded(mask) && PlainEnd(mask) }

  predicate AllDecided(bans: seq<Ban>) { forall b :: b in bans ==> Decided(b.mask) }

  /** Some mask of the list means the text. */
  ghost predicate Hits(bans: seq<Ban>, text: string) {
    exists b :: b in bans && Wild(Lower(b.mask), Lower(text))
  }

  lemma LowerKeepsShape(s: string)
    ensures NoQuestion(s) ==> NoQuestion(Lower(s))
    ensures PlainEnd(s) ==> PlainEnd(Lower(s))
    ensures NoStar(s) ==> NoStar(Lower(s))
    ensures Guarded(s) ==> Guarded(Lower(s))
    ensures NoQuestion(s) ==> Guarded(s)
  {
    assert forall i :: 0 <= i < |s| ==>
      s[i] in s && (Lower(s)[i] == '*' <==> s[i] == '*') && (Lower(s)[i] == '?' <==> s[i] == '?');
  }

  lemma {:induction false} ScanMeaning(bans: seq<Ban>, text: string)
    requires AllDecided(bans) && NoStar(text)
    ensures BanScan(bans, Lower(text)) == if Hits(bans, text) then Yes else No
  {
    if bans != [] {
      var m := Lower(bans[0].mask);
      assert bans[0] in bans;
      LowerKeepsShape(bans[0].mask);
      LowerKeepsShape(text);
      GuardedIsDefined(m, Lower(text));
      MatchIsWild(m, Lower(text));
      ScanMeaning(bans[1..], text);
      assert forall b :: b in bans <==> b == bans[0] || b in bans[1..];
    }
  }

  /** The ban verdict is the union of the masks' meanings, whatever the order of the lists. */
  lemma IsBanMeaning(ch: Chan, text: string)
    requires AllDecided(ch.bans) && AllDecided(ch.pbans) && NoStar(text)
    ensures IsBan(ch, text) == if ch.users != {} && (Hits(ch.bans, text) || Hits(ch.pbans, text)) then Yes else No
  {
    ScanMeaning(ch.bans, text);
    ScanMeaning(ch.pbans, text);
  }

  lemma CleanIsDecided(bans: seq<Ban>)
    ensures AllClean(bans) ==> AllDecided(bans)
  {
    forall b | b in bans && Clean(b.mask) ensures Decided(b.mask) { LowerKeepsShape(b.mask); }
  }

  lemma {:induction false} ScanYes(bans: seq<Ban>, mask: string)
    requires BanScan(bans, mask) == Yes
    ensures exists b :: b in bans && Match(Lower(b.mask), mask) == Yes
  {
    if Match(Lower(bans[0].mask), mask) == No { ScanYes(bans[1..], mask); }
    else { assert bans[0] in bans; }
  }

  lemma {:induction false} ScanDefined(bans: seq<Ban>, mask: string)
    requires AllNoQuestion(bans)
    ensures BanScan(bans, mask) != Undefined
  {
    if bans != [] {
      assert bans[0] in bans;
      LowerKeepsShape(bans[0].mask);
      DefinedWithoutQuestion(Lower(bans[0].mask), mask);
      ScanDefined(bans[1..], mask);
    }
  }

  /** Where no mask has a `?` or ends in `**`, a mask refused as already existing could not have
      changed who is banned. */
  lemma RefusedBanIsRedundant(ch: Chan, mask: string, text: string)
    requires AllClean(ch.bans) && AllClean(ch.pbans) && NoStar(text)
    requires IsBan(ch, mask) == Yes
    requires Wild(Lower(mask), Lower(text))
    ensures IsBan(ch, text) == Yes
  {
    var list := if BanScan(ch.bans, Lower(mask)) == Yes then ch.bans else ch.pbans;
    ScanYes(list, Lower(mask));
    var b :| b in list && Match(Lower(b.mask), Lower(mask)) == Yes;
    LowerKeepsShape(b.mask);
    WildSubsumes(Lower(b.mask), Lower(mask), Lower(text));
    CleanIsDecided(ch.bans);
    CleanIsDecided(ch.pbans);
    IsBanMeaning(ch, text);
  }

  /** A channel with one member and one ban. */
  function OneBan(mask: string): Chan { EMPTY.(users := {"alice"}, bans := [Ban(mask, "alice", 0)]) }

  lemma OneBanIs(mask: string, text: string)
    ensures IsBan(OneBan(mask), text) == Match(Lower(mask), Lower(text))
  {
    var ch, t := OneBan(mask), Lower(text);
    assert "alice" in ch.users && ch.bans[0].mask == mask && ch.bans[1..] == [] && ch.pbans == [];
    assert BanScan([], t) == No;
    assert BanScan(ch.bans, t) == Match(Lower(mask), t);
  }

  /** `a?` makes `+b a*` refused and does not ban `abc`, */
  lemma QuestionRefusesMore()
    ensures IsBan(OneBan("a?"), "a*") == Yes && IsBan(OneBan("a?"), "abc") == No
    ensures Match(Lower("a*"), Lower("abc")) == Yes
  {
    assert Lower("a?") == "a?" && Lower("a*") == "a*" && Lower("abc") == "abc";
    hide *;
    QuestionBreaksSubsumption();
    OneBanIs("a?", "a*");
    OneBanIs("a?", "abc");
  }

  /** and `a**` makes it refused and does not ban `a`. */
  lemma TwoStarsRefuseMore()
    ensures IsBan(OneBan("a**"), "a*") == Yes && IsBan(OneBan("a**"), "a") == No
    ensures Match(Lower("a*"), Lower("a")) == Yes
  {
    assert Lower("a**") == "a**" && Lower("a*") == "a*" && Lower("a") == "a";
    TwoStarsBreakSubsumption();
    hide *;
    OneBanIs("a**", "a*");
    OneBanIs("a**", "a");
  }

  lemma {:induction false} ShortestLowered(p: string)
    ensures Lower(Shortest(Lower(p))) == Shortest(Lower(p))
  {
    if p != "" {
      ShortestLowered(p[1..]);
      assert Lower(p)[1..] == Lower(p[1..]);
      LowerTwice(p);
      var s, c := Shortest(Lower(p[1..])), if p[0] == '?' then 'x' else Lower(p)[0];
      assert Lower([c] + s) == [c] + Lower(s);
    }
  }

  /** Where one ban is set, without `?`: no mask that it makes refused would have banned
      anybody else, if and only if it does not end in two stars and no more. */
  lemma RefusedIsRedundantIff(mask: string)
    requires NoQuestion(mask)
    ensures (forall m, text | NoStar(text) && IsBan(OneBan(mask), m) == Yes && Match(Lower(m), Lower(text)) == Yes ::
               IsBan(OneBan(mask), text) == Yes) <==> !TwoStarEnd(Lower(mask))
  {
    var b := Lower(mask);
    LowerKeepsShape(mask);
    hide IsBan;
    if TwoStarEnd(b) {
      var m, text := mask[..|mask| - 1], Shortest(b);
      assert Lower(m) == b[..|b| - 1];
      ShortestLowered(mask);
      TwoStarsMatchOne(b);
      MeansShortest(Lower(m));
      MatchIsWild(Lower(m), text);
      OneBanIs(mask, m);
      OneBanIs(mask, text);
      if Match(b, text) == Yes { DoubleStarWantsMore(b, text); }
    } else {
      forall m, text | NoStar(text) && IsBan(OneBan(mask), m) == Yes && Match(Lower(m), Lower(text)) == Yes
        ensures IsBan(OneBan(mask), text) == Yes
      {
        LowerKeepsShape(text);
        OneBanIs(mask, m);
        OneBanIs(mask, text);
        SubsumptionIff(b);
      }
    }
  }

  // ---------------------------------------------------------------- rank changes

  /** One signed rank letter, as broadcast to the channel and sent to the peers as CMODE. */
  datatype Change = Change(on: bool, rank: Rank, who: string)

  datatype Effect = Effect(chan: Chan, changes: seq<Change>)

  function Give(e: Effect, t: string, r: Rank): Effect {
    Effect(e.chan.With(r, e.chan.Holders(r) + {t}), e.changes + [Change(true, r, t)])
  }

  function Take(e: Effect, t: string, r: Rank): Effect {
    Effect(e.chan.With(r, e.chan.Holders(r) - {t}), e.changes + [Change(false, r, t)])
  }

  function TakeIfHeld(e: Effect, t: string, r: Rank): Effect {
    if t in e.chan.Holders(r) then Take(e, t, r) else e
  }

  /** What a peer does with a received CMODE for a rank letter. */
  function Replay(ch: Chan, changes: seq<Change>): Chan
    decreases |changes|
  {
    if changes == [] then ch
    else
      var ch' := Replay(ch, changes[..|changes| - 1]);
      var c := changes[|changes| - 1];
      ch'.With(c.rank, if c.on then ch'.Holders(c.rank) + {c.who} else ch'.Holders(c.rank) - {c.who})
  }

  predicate SameRanks(a: Chan, b: Chan) { a.ops == b.ops && a.halfs == b.halfs && a.voices == b.voices }

  /** The effect's changes, replayed elsewhere on the same channel, give the same ranks. */
  ghost predicate Announces(ch: Chan, e: Effect) {
    SameRanks(Replay(ch, e.changes), e.chan)
  }

  lemma AnnouncedStep(ch: Chan, e: Effect, t: string, r: Rank)
    requires Announces(ch, e)
    ensures Announces(ch, Give(e, t, r)) && Announces(ch, Take(e, t, r)) && Announces(ch, TakeIfHeld(e, t, r))
  {
    assert (e.changes + [Change(true, r, t)])[..|e.changes|] == e.changes;
    assert (e.changes + [Change(false, r, t)])[..|e.changes|] == e.changes;
  }

  // ---------------------------------------------------------------- MODE

  /** `+o`, `+h`, `+v` on a member that lacks the rank: the other two ranks go first. */
  function Promote(e: Effect, t: string, r: Rank): Effect {
    match r
    case Op => Give(TakeIfHeld(TakeIfHeld(e, t, Voice), t, Half), t, Op)
    case Half => Give(TakeIfHeld(TakeIfHeld(e, t, Op), t, Voice), t, Half)
    case Voice => Give(TakeIfHeld(TakeIfHeld(e, t, Op), t, Half), t, Voice)
  }

  /** Who may give a rank without being an IRC operator. */
  predicate MayGive(ch: Chan, caller: string, r: Rank) {
    caller in ch.ops || (r == Voice && caller in ch.halfs)
  }

  predicate MayTake(ch: Chan, caller: string, t: string, r: Rank) {
    match r
    case Op => caller in ch.ops && t in ch.ops
    case Half => t in ch.halfs || caller in ch.ops
    case Voice => t in ch.voices && (caller in ch.ops || caller in ch.halfs)
  }

  function RankLetter(e: Effect, caller: string, oper: bool, on: bool, r: Rank, t: string): Effect {
    if t !in e.chan.users then e
    else if on then
      if oper && t !in e.chan.Holders(r) then Promote(e, t, r)
      else if t in e.chan.Holders(r) then e
      else if !MayGive(e.chan, caller, r) then e
      else Promote(e, t, r)
    else if MayTake(e.chan, caller, t, r) then Take(e, t, r)
    else e
  }

  /** The caller and the server settings that MODE consults. */
  datatype Caller = Caller(key: string, nick: string, oper: bool, known: set<string>, maxbans: nat, now: int)

  /** The ban whose mask is written exactly so is removed; the first one found. */
  function Unban(bans: seq<Ban>, mask: string): seq<Ban> {
    if bans == [] then [] else if bans[0].mask == mask then bans[1..] else [bans[0]] + Unban(bans[1..], mask)
  }

  function BanLetter(ch: Chan, list: seq<Ban>, me: Caller, on: bool, mask: string): Option<seq<Ban>> {
    match IsBan(ch, Lower(mask))
    case Undefined => None
    case Yes => Some(if on then list else Unban(list, mask))
    case No => Some(if on && |list| < me.maxbans then list + [Ban(mask, me.nick, me.now)] else list)
  }

  /** A recognised letter with its sign and the index of its parameter. */
  datatype Event = Event(on: bool, letter: char, arg: nat)

  predicate Recognised(c: char) { c == 'b' || c == 'B' || c == 'o' || c == 'h' || c == 'v' }

  function RankOf(c: char): Rank { if c == 'o' then Op else if c == 'h' then Half else Voice }

  /** None: the matcher ran past a terminator. */
  function ApplyEvent(e: Effect, me: Caller, ev: Event, params: seq<string>): Option<Effect>
    requires ev.arg < |params|
  {
    var p := params[ev.arg];
    if ev.letter == 'b' then
      match BanLetter(e.chan, e.chan.bans, me, ev.on, p)
      case None => None
      case Some(list) => Some(e.(chan := e.chan.(bans := list)))
    else if ev.letter == 'B' then
      match BanLetter(e.chan, e.chan.pbans, me, ev.on, p)
      case None => None
      case Some(list) => Some(e.(chan := e.chan.(pbans := list)))
    else if Lower(p) !in me.known then Some(e)
    else Some(RankLetter(e, me.key, me.oper, ev.on, RankOf(ev.letter), Lower(p)))
  }

  /** The letters of a mode string, from parameter `j` on, until the parameters run out. */
  function Events(modes: string, on: bool, j: nat, n: nat): (evs: seq<Event>)
    requires j <= n
    ensures forall k :: 0 <= k < |evs| ==> evs[k].arg < n
  {
    if modes == "" || j == n then []
    else if modes[0] == '+' then Events(modes[1..], true, j, n)
    else if modes[0] == '-' then Events(modes[1..], false, j, n)
    else if Recognised(modes[0]) then [Event(on, modes[0], j)] + Events(modes[1..], on, j + 1, n)
    else Events(modes[1..], on, j, n)
  }

  function ApplyEvents(e: Effect, me: Caller, evs: seq<Event>, params: seq<string>): Option<Effect>
    requires forall k :: 0 <= k < |evs| ==> evs[k].arg < |params|
    decreases |evs|
  {
    if evs == [] then Some(e)
    else
      match ApplyEvent(e, me, evs[0], params)
      case None => None
      case Some(e') => ApplyEvents(e', me, evs[1..], params)
  }

  /** The letter loop of MODE on a whole command. */
  function ModeLetters(ch: Chan, me: Caller, modes: string, params: seq<string>): Option<Effect> {
    ApplyEvents(Effect(ch, []), me, Events(modes, false, 0, |params|), params)
  }

  // The pairing of letters, parameters and signs, stated on positions of the mode string.

  /** How many letters are recognised in a mode string. */
  function LetterCount(modes: string): nat {
    if modes == "" then 0 else (if Recognised(modes[0]) then 1 else 0) + LetterCount(modes[1..])
  }

  /** The sign in force after a mode string read with `on` before it: its last + or -. */
  predicate SignAfter(modes: string, on: bool) {
    if modes == "" then on
    else if modes[|modes| - 1] == '+' then true
    else if modes[|modes| - 1] == '-' then false
    else SignAfter(modes[..|modes| - 1], on)
  }

  lemma {:induction false} SignAfterStep(modes: string, on: bool)
    requires modes != ""
    ensures SignAfter(modes, on) ==
            SignAfter(modes[1..], if modes[0] == '+' then true else if modes[0] == '-' then false else on)
  {
    if |modes| > 1 {
      var front := modes[..|modes| - 1];
      SignAfterStep(front, on);
      assert front[1..] == modes[1..][..|modes[1..]| - 1];
    } else {
      assert modes[..0] == "" && modes[1..] == "";
    }
  }

  lemma {:induction false} EventAt(modes: string, on: bool, j: nat, n: nat, i: nat)
    requires j <= n && i < |modes| && Recognised(modes[i]) && j + LetterCount(modes[..i]) < n
    ensures var k := LetterCount(modes[..i]);
            k < |Events(modes, on, j, n)| &&
            Events(modes, on, j, n)[k] == Event(SignAfter(modes[..i], on), modes[i], j + k)
  {
    assert !Recognised('+') && !Recognised('-');
    hide Recognised;
    if i == 0 {
      assert modes[..0] == "";
    } else {
      var head := modes[..i];
      assert head[0] == modes[0] && head[1..] == modes[1..][..i - 1] && modes[1..][i - 1] == modes[i];
      SignAfterStep(head, on);
      var on' := if modes[0] == '+' then true else if modes[0] == '-' then false else on;
      var j' := if Recognised(modes[0]) then j + 1 else j;
      EventAt(modes[1..], on', j', n, i - 1);
    }
  }

  lemma {:induction false} EventCount(modes: string, on: bool, j: nat, n: nat)
    requires j <= n
    ensures |Events(modes, on, j, n)| == if LetterCount(modes) <= n - j then LetterCount(modes) else n - j
  {
    if modes != "" && j < n {
      EventCount(modes[1..], true, j, n);
      EventCount(modes[1..], false, j, n);
      if Recognised(modes[0]) { EventCount(modes[1..], on, j + 1, n); } else { EventCount(modes[1..], on, j, n); }
    }
  }

  /** MODE processes the k-th recognised letter, if there is a k-th parameter, with that
      parameter and under the last sign before it; letters beyond the parameters do nothing. */
  lemma ScannerPairing(modes: string, n: nat, i: nat)
    requires i < |modes| && Recognised(modes[i])
    ensures var evs := Events(modes, false, 0, n);
            var k := LetterCount(modes[..i]);
            |evs| == (if LetterCount(modes) <= n then LetterCount(modes) else n) &&
            (k < n ==> k < |evs| && evs[k] == Event(SignAfter(modes[..i], false), modes[i], k))
  {
    EventCount(modes, false, 0, n);
    if LetterCount(modes[..i]) < n { EventAt(modes, false, 0, n, i); }
  }

  /** Same members; ranks stay within the members if they were, and exclusive if they were. */
  predicate KeepsRanks(before: Chan, after: Chan) {
    after.users == before.users &&
    (before.Ranked() ==> after.Ranked()) &&
    (before.Exclusive() ==> after.Exclusive())
  }

  lemma RankLetterKeeps(e: Effect, caller: string, oper: bool, on: bool, r: Rank, t: string)
    ensures var e' := RankLetter(e, caller, oper, on, r, t);
            e'.chan.bans == e.chan.bans && e'.chan.pbans == e.chan.pbans && KeepsRanks(e.chan, e'.chan)
  {}

  /** What one rank letter does, to whom: an authorised `+` leaves the target that rank alone,
      an authorised `-` takes that rank only, anything else and anybody else is untouched. */
  lemma RankLetterExact(e: Effect, caller: string, oper: bool, on: bool, r: Rank, t: string, u: string, q: Rank)
    requires e.chan.Ranked() && e.chan.Exclusive()
    ensures var ch, ch' := e.chan, RankLetter(e, caller, oper, on, r, t).chan;
            (u != t || t !in ch.users ==> (u in ch'.Holders(q) <==> u in ch.Holders(q))) &&
            (t in ch.users && on ==>
              (t in ch'.Holders(q) <==> if oper || MayGive(ch, caller, r) then q == r else t in ch.Holders(q))) &&
            (t in ch.users && !on ==>
              (t in ch'.Holders(q) <==> t in ch.Holders(q) && !(q == r && MayTake(ch, caller, t, r))))
  {
    RankLetterKeeps(e, caller, oper, on, r, t);
  }

  lemma EventKeepsRanks(e: Effect, me: Caller, ev: Event, params: seq<string>)
    requires ev.arg < |params|
    requires ApplyEvent(e, me, ev, params).Some?
    ensures KeepsRanks(e.chan, ApplyEvent(e, me, ev, params).value.chan)
  {
    if ev.letter != 'b' && ev.letter != 'B' {
      RankLetterKeeps(e, me.key, me.oper, ev.on, RankOf(ev.letter), Lower(params[ev.arg]));
    }
  }

  /** Over a whole MODE command members stay, ranks stay within the members and exclusive. */
  lemma {:induction false} ModeKeepsRanks(e: Effect, me: Caller, evs: seq<Event>, params: seq<string>)
    requires forall k :: 0 <= k < |evs| ==> evs[k].arg < |params|
    requires ApplyEvents(e, me, evs, params).Some?
    ensures KeepsRanks(e.chan, ApplyEvents(e, me, evs, params).value.chan)
    decreases |evs|
  {
    if evs != [] {
      EventKeepsRanks(e, me, evs[0], params);
      ModeKeepsRanks(ApplyEvent(e, me, evs[0], params).value, me, evs[1..], params);
    }
  }

  /** No mask occurs twice, in one list or across both, whatever the case of its letters. */
  ghost predicate MasksDistinct(bans: seq<Ban>, pbans: seq<Ban>) {
    NoRepeat(bans) && NoRepeat(pbans) && NoShared(bans, pbans)
  }

  ghost predicate NoShared(x: seq<Ban>, y: seq<Ban>) {
    forall a, b :: a in x && b in y ==> Lower(a.mask) != Lower(b.mask)
  }

  ghost predicate NoRepeat(bans: seq<Ban>) {
    forall i, j :: 0 <= i < j < |bans| ==> Lower(bans[i].mask) != Lower(bans[j].mask)
  }

  lemma {:induction false} ScanNo(bans: seq<Ban>, mask: string)
    requires BanScan(bans, mask) == No
    ensures forall b :: b in bans ==> Lower(b.mask) != mask
  {
    if bans != [] {
      ScanNo(bans[1..], mask);
      MatchReflexive(mask);
      assert forall b :: b in bans ==> b == bans[0] || b in bans[1..];
    }
  }

  /** Removing a mask removes nothing else, and where masks are distinct it is gone. */
  lemma {:induction false} UnbanExact(bans: seq<Ban>, mask: string)
    ensures var rest := Unban(bans, mask);
            (forall b :: b in rest ==> b in bans) &&
            (forall b :: b in bans && b.mask != mask ==> b in rest) &&
            (NoRepeat(bans) ==> NoRepeat(rest) && forall b :: b in rest ==> b.mask != mask)
  {
    if bans != [] {
      UnbanExact(bans[1..], mask);
      assert forall b :: b in bans <==> b == bans[0] || b in bans[1..];
      if NoRepeat(bans) {
        assert NoRepeat(bans[1..]);
        assert forall b :: b in bans[1..] ==> Lower(b.mask) != Lower(bans[0].mask);
      }
    }
  }

  lemma EventKeepsMasks(e: Effect, me: Caller, ev: Event, params: seq<string>)
    requires ev.arg < |params| && e.chan.users != {} && MasksDistinct(e.chan.bans, e.chan.pbans)
    requires ApplyEvent(e, me, ev, params).Some?
    ensures var ch := ApplyEvent(e, me, ev, params).value.chan; MasksDistinct(ch.bans, ch.pbans)
  {
    hide NoRepeat;
    hide NoShared;
    hide IsBan;
    hide Unban;
    var ch, mask := e.chan, params[ev.arg];
    if ev.letter == 'b' {
      ListKeepsMasks(ch, ch.bans, ch.pbans, mask, Ban(mask, me.nick, me.now));
      SharedBothWays(ch.bans, ch.pbans);
    } else if ev.letter == 'B' {
      SharedBothWays(ch.bans, ch.pbans);
      ListKeepsMasks(ch, ch.pbans, ch.bans, mask, Ban(mask, me.nick, me.now));
      SharedBothWays(Unban(ch.pbans, mask), ch.bans);
      SharedBothWays(ch.pbans + [Ban(mask, me.nick, me.now)], ch.bans);
    } else {
      RankLetterKeeps(e, me.key, me.oper, ev.on, RankOf(ev.letter), Lower(mask));
    }
  }

  lemma SharedBothWays(x: seq<Ban>, y: seq<Ban>)
    ensures NoShared(x, y) <==> NoShared(y, x)
  {}

  /** One list changed as the letters b and B change it, the other as it was. */
  lemma ListKeepsMasks(ch: Chan, list: seq<Ban>, other: seq<Ban>, mask: string, b: Ban)
    requires ch.users != {} && b.mask == mask
    requires (list == ch.bans && other == ch.pbans) || (list == ch.pbans && other == ch.bans)
    requires NoRepeat(list) && NoShared(list, other)
    ensures NoRepeat(Unban(list, mask)) && NoShared(Unban(list, mask), other)
    ensures IsBan(ch, Lower(mask)) == No ==> NoRepeat(list + [b]) && NoShared(list + [b], other)
  {
    hide Unban;
    hide BanScan;
    UnbanExact(list, mask);
    LowerTwice(mask);
    if IsBan(ch, Lower(mask)) == No {
      ScanNo(list, Lower(mask));
      ScanNo(other, Lower(mask));
      assert forall x :: x in list + [b] ==> x in list || x == b;
    }
  }

  lemma LowerTwice(s: string)
    ensures Lower(Lower(s)) == Lower(s)
  {
    assert forall i :: 0 <= i < |s| ==> Lower(Lower(s))[i] == Lower(s)[i];
  }

  /** A mask already set is found and refused, so over a whole MODE command on a channel with
      members the masks stay distinct; `-b` then really removes the mask. */
  lemma {:induction false} ModeKeepsMasks(e: Effect, me: Caller, evs: seq<Event>, params: seq<string>)
    requires forall k :: 0 <= k < |evs| ==> evs[k].arg < |params|
    requires e.chan.users != {} && MasksDistinct(e.chan.bans, e.chan.pbans)
    requires ApplyEvents(e, me, evs, params).Some?
    ensures var ch := ApplyEvents(e, me, evs, params).value.chan; MasksDistinct(ch.bans, ch.pbans)
    decreases |evs|
  {
    hide MasksDistinct;
    if evs != [] {
      EventKeepsMasks(e, me, evs[0], params);
      EventKeepsRanks(e, me, evs[0], params);
      ModeKeepsMasks(ApplyEvent(e, me, evs[0], params).value, me, evs[1..], params);
    }
  }

  /** The mask stands in one of the lists, in some case of its letters. */
  predicate HasMask(ch: Chan, mask: string) { InList(ch.bans, mask) || InList(ch.pbans, mask) }

  predicate InList(bans: seq<Ban>, mask: string) { exists b :: b in bans && Lower(b.mask) == Lower(mask) }

  /** A ban appended to a list of distinct masks. */
  lemma AppendedMask(bans: seq<Ban>, pbans: seq<Ban>, b: Ban)
    requires MasksDistinct(bans, pbans)
    ensures MasksDistinct(bans + [b], pbans) <==> !(InList(bans, b.mask) || InList(pbans, b.mask))
    ensures MasksDistinct(bans, pbans + [b]) <==> !(InList(bans, b.mask) || InList(pbans, b.mask))
  {
    var more, pmore := bans + [b], pbans + [b];
    assert b in more && b in pmore;
    assert more[|bans|] == b && pmore[|pbans|] == b;
    if InList(bans, b.mask) {
      var x :| x in bans && Lower(x.mask) == Lower(b.mask);
      var i :| 0 <= i < |bans| && bans[i] == x;
      assert more[i] == x;
    }
    if InList(pbans, b.mask) {
      var x :| x in pbans && Lower(x.mask) == Lower(b.mask);
      var i :| 0 <= i < |pbans| && pbans[i] == x;
      assert pmore[i] == x;
    }
    assert forall x :: x in more ==> x in bans || x == b;
    assert forall x :: x in pmore ==> x in pbans || x == b;
  }

  /** Setting a mask repeats one exactly on a channel without members, where no ban is found,
      when the mask stands in a list already and the list has room. */
  lemma RepeatsOnlyOnEmpty(ch: Chan, me: Caller, mask: string)
    requires MasksDistinct(ch.bans, ch.pbans)
    ensures var r := BanLetter(ch, ch.bans, me, true, mask);
            r.Some? ==>
              (MasksDistinct(r.value, ch.pbans) <==> !(ch.users == {} && |ch.bans| < me.maxbans && HasMask(ch, mask)))
    ensures var r := BanLetter(ch, ch.pbans, me, true, mask);
            r.Some? ==>
              (MasksDistinct(ch.bans, r.value) <==> !(ch.users == {} && |ch.pbans| < me.maxbans && HasMask(ch, mask)))
  {
    hide MasksDistinct;
    hide InList;
    hide BanScan;
    AppendedMask(ch.bans, ch.pbans, Ban(mask, me.nick, me.now));
    if IsBan(ch, Lower(mask)) == No && ch.users != {} { NotFoundNotSet(ch, mask); }
  }

  lemma NotFoundNotSet(ch: Chan, mask: string)
    requires ch.users != {} && (IsBan(ch, mask) == No || IsBan(ch, Lower(mask)) == No)
    ensures !HasMask(ch, mask)
  {
    hide BanScan;
    LowerTwice(mask);
    ScanNo(ch.bans, Lower(mask));
    ScanNo(ch.pbans, Lower(mask));
  }

  /** A caller who is neither channel operator nor IRC operator adds no operator and no
      half-operator, whatever the letters, signs and parameters. */
  lemma {:induction false} ModeCannotEscalate(e: Effect, me: Caller, evs: seq<Event>, params: seq<string>)
    requires forall k :: 0 <= k < |evs| ==> evs[k].arg < |params|
    requires me.key !in e.chan.ops && !me.oper
    requires ApplyEvents(e, me, evs, params).Some?
    ensures var ch := ApplyEvents(e, me, evs, params).value.chan;
            ch.ops <= e.chan.ops && ch.halfs <= e.chan.halfs
    decreases |evs|
  {
    if evs != [] {
      ModeCannotEscalate(ApplyEvent(e, me, evs[0], params).value, me, evs[1..], params);
    }
  }

  /** What a half-operator can do is demote: `+v` turns any operator into a voiced member. */
  lemma HalfOpDemotesOp(e: Effect, caller: string, t: string)
    requires e.chan.Ranked() && e.chan.Exclusive()
    requires caller in e.chan.halfs && t in e.chan.ops
    ensures RankLetter(e, caller, false, true, Voice, t).chan ==
            e.chan.(ops := e.chan.ops - {t}, voices := e.chan.voices + {t})
    ensures RankLetter(e, caller, false, false, Op, t) == e
  {}

  lemma RankLetterAnnounced(ch: Chan, e: Effect, caller: string, oper: bool, on: bool, r: Rank, t: string)
    requires Announces(ch, e)
    ensures Announces(ch, RankLetter(e, caller, oper, on, r, t))
  {
    AnnouncedStep(ch, e, t, r);
    var first := if r == Op then Voice else Op;
    var second := if r == Op || r == Voice then Half else Voice;
    AnnouncedStep(ch, e, t, first);
    AnnouncedStep(ch, TakeIfHeld(e, t, first), t, second);
    AnnouncedStep(ch, TakeIfHeld(TakeIfHeld(e, t, first), t, second), t, r);
  }

  /** The CMODE lines sent out by the rank letters, in any mix with ban letters, rebuild the
      ranks on a peer that had the same. */
  lemma {:induction false} ModeAnnounced(ch: Chan, e: Effect, me: Caller, evs: seq<Event>, params: seq<string>)
    requires forall k :: 0 <= k < |evs| ==> evs[k].arg < |params|
    requires Announces(ch, e)
    requires ApplyEvents(e, me, evs, params).Some?
    ensures Announces(ch, ApplyEvents(e, me, evs, params).value)
    decreases |evs|
  {
    if evs != [] {
      var p := Lower(params[evs[0].arg]);
      RankLetterAnnounced(ch, e, me.key, me.oper, evs[0].on, RankOf(evs[0].letter), p);
      ModeAnnounced(ch, ApplyEvent(e, me, evs[0], params).value, me, evs[1..], params);
    }
  }

  // ---------------------------------------------------------------- ChanServ

  /** `ChanServ::Access`: the stored level wins over founder and IRC-operator status. */
  function Access(level: string, founder: bool, ircop: bool): nat {
    if Upper(level) == "VOP" then 1
    else if Upper(level) == "HOP" then 2
    else if Upper(level) == "AOP" then 3
    else if Upper(level) == "SOP" then 4
    else if founder then 5
    else if ircop then 5
    else 0
  }

  /** `ChanServ::CheckModes` on a member. */
  function CheckModes(e: Effect, t: string, noop: bool, autovoice: bool, access0: nat): Effect {
    if noop || t !in e.chan.users then e
    else
      var access := if autovoice && access0 < 1 then 1 else access0;
      if t in e.chan.voices then
        if access < 1 then Take(e, t, Voice)
        else if access == 2 then Give(Take(e, t, Voice), t, Half)
        else if access > 2 then Give(Take(e, t, Voice), t, Op)
        else e
      else if t in e.chan.halfs then
        if access < 2 then Take(e, t, Half)
        else if access > 2 then Give(Take(e, t, Half), t, Op)
        else e
      else if t in e.chan.ops then
        if access < 3 then Take(e, t, Op) else e
      else if access == 1 then Give(e, t, Voice)
      else if access == 2 then Give(e, t, Half)
      else if access > 2 then Give(e, t, Op)
      else e
  }

  /** The member holds exactly the rank that the access calls for. */
  predicate AtTarget(ch: Chan, t: string, autovoice: bool, access0: nat) {
    var access := if autovoice && access0 < 1 then 1 else access0;
    (t in ch.voices <==> access == 1) && (t in ch.halfs <==> access == 2) && (t in ch.ops <==> access > 2)
  }

  predicate Rankless(ch: Chan, t: string) { t !in ch.ops && t !in ch.halfs && t !in ch.voices }

  /** At most two calls reach the target rank; a rankless member needs one; and a call
      is silent exactly when the target is already reached. */
  lemma CheckModesConverges(e: Effect, t: string, autovoice: bool, access: nat)
    requires t in e.chan.users && e.chan.Exclusive()
    ensures var e1 := CheckModes(e, t, false, autovoice, access);
            var e2 := CheckModes(e1, t, false, autovoice, access);
            AtTarget(e2.chan, t, autovoice, access) &&
            (Rankless(e.chan, t) ==> AtTarget(e1.chan, t, autovoice, access)) &&
            (e1 == e <==> AtTarget(e.chan, t, autovoice, access)) &&
            (e1.changes == e.changes <==> e1 == e)
  {
    var e1 := CheckModes(e, t, false, autovoice, access);
    assert |e1.changes| > |e.changes| || e1 == e;
  }

  /** One call reaches the target unless a rank has to go down to another rank: it then only
      takes the rank away. */
  lemma OneCallReachesIff(e: Effect, t: string, autovoice: bool, access0: nat)
    requires t in e.chan.users && e.chan.Exclusive()
    ensures var access := if autovoice && access0 < 1 then 1 else access0;
            AtTarget(CheckModes(e, t, false, autovoice, access0).chan, t, autovoice, access0) <==>
            !(t in e.chan.ops && 1 <= access <= 2) && !(t in e.chan.halfs && access == 1)
  {}

  /** In those cases the member is left without a rank by the first call. */
  lemma CheckModesNeedsTwo(e: Effect, t: string, autovoice: bool, access0: nat)
    requires t in e.chan.users && e.chan.Exclusive()
    requires !AtTarget(CheckModes(e, t, false, autovoice, access0).chan, t, autovoice, access0)
    ensures Rankless(CheckModes(e, t, false, autovoice, access0).chan, t)
  {}

  /** OP, DEOP, HALFOP, DEHALFOP, VOICE and DEVOICE of ChanServ. */
  function ServiceRank(e: Effect, t: string, r: Rank, on: bool): Effect {
    var held := if t in e.chan.voices then Some(Voice) else if t in e.chan.halfs then Some(Half)
                else if t in e.chan.ops then Some(Op) else None;
    match held
    case Some(h) =>
      if on && h != r then Give(Take(e, t, h), t, r)
      else if !on && h == r then Take(e, t, r)
      else e
    case None => if t in e.chan.users && on then Give(e, t, r) else e
  }

  /** The member ends with rank `r` alone, or without it; nobody else moves. */
  lemma ServiceRankExact(e: Effect, t: string, r: Rank, on: bool, u: string, q: Rank)
    requires e.chan.Exclusive() && e.chan.Ranked() && t in e.chan.users
    ensures var ch := ServiceRank(e, t, r, on).chan;
            (on ==> (t in ch.Holders(q) <==> q == r)) &&
            (!on ==> (t in ch.Holders(q) <==> q != r && t in e.chan.Holders(q))) &&
            (u != t ==> (u in ch.Holders(q) <==> u in e.chan.Holders(q)))
  {}

  lemma ServiceRankKeeps(e: Effect, t: string, r: Rank, on: bool)
    ensures KeepsRanks(e.chan, ServiceRank(e, t, r, on).chan)
  {}

  lemma CheckModesKeeps(e: Effect, t: string, noop: bool, autovoice: bool, access: nat)
    ensures KeepsRanks(e.chan, CheckModes(e, t, noop, autovoice, access).chan)
  {}

  lemma SwapAnnounced(ch: Chan, e: Effect, t: string, h: Rank, r: Rank)
    requires Announces(ch, e)
    ensures Announces(ch, Give(e, t, r)) && Announces(ch, Take(e, t, r)) && Announces(ch, Give(Take(e, t, h), t, r))
  {
    AnnouncedStep(ch, e, t, r);
    AnnouncedStep(ch, e, t, h);
    AnnouncedStep(ch, Take(e, t, h), t, r);
  }

  /** ChanServ's own rank changes are announced in full as well. */
  lemma ServiceRankAnnounced(ch: Chan, e: Effect, t: string, r: Rank, on: bool)
    requires Announces(ch, e)
    ensures Announces(ch, ServiceRank(e, t, r, on))
  {
    hide Announces;
    SwapAnnounced(ch, e, t, Voice, r);
    SwapAnnounced(ch, e, t, Half, r);
    SwapAnnounced(ch, e, t, Op, r);
  }

  lemma CheckModesAnnounced(ch: Chan, e: Effect, t: string, noop: bool, autovoice: bool, access: nat)
    requires Announces(ch, e)
    ensures Announces(ch, CheckModes(e, t, noop, autovoice, access))
  {
    hide Announces;
    SwapAnnounced(ch, e, t, Voice, Half);
    SwapAnnounced(ch, e, t, Voice, Op);
    SwapAnnounced(ch, e, t, Half, Op);
    SwapAnnounced(ch, e, t, Half, Voice);
  }
}
