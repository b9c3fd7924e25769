/** What each local command does, written out on the fields of users and on the member and rank
    sets of channels, without the functions that define the steps. */
module Effects {
  import opened Text
  import opened Glob
  import opened ChannelState
  import opened NetState

  /** Nobody differs but the users under `ks`, and no channel but those under `cs`. */
  ghost predicate OnlyAt(n: Net, n': Net, ks: set<string>, cs: set<string>) {
    (forall k :: k !in ks ==> (k in n.users <==> k in n'.users)) &&
    (forall k :: k in n.users && k !in ks ==> n'.users[k] == n.users[k]) &&
    (forall c :: c !in cs ==> (c in n.channels <==> c in n'.channels)) &&
    (forall c :: c in n.channels && c !in cs ==> n'.channels[c] == n.channels[c])
  }

  /** Members, masks and everybody else's ranks are as they were. */
  ghost predicate RanksOnly(ch: Chan, ch': Chan, t: string) {
    ch'.users == ch.users && ch'.bans == ch.bans && ch'.pbans == ch.pbans && ch'.orphaned == ch.orphaned &&
    RanksBut(ch, ch', t)
  }

  ghost predicate RanksBut(ch: Chan, ch': Chan, t: string) {
    forall u :: u != t ==>
      (u in ch'.ops <==> u in ch.ops) && (u in ch'.halfs <==> u in ch.halfs) && (u in ch'.voices <==> u in ch.voices)
  }

  /** In which rank sets somebody stands. */
  predicate Stands(ch: Chan, t: string, op: bool, half: bool, voice: bool) {
    (t in ch.ops <==> op) && (t in ch.halfs <==> half) && (t in ch.voices <==> voice)
  }

  // ---------------------------------------------------------------- MODE

  lemma OneLetter(e: Effect, me: Caller, on: bool, letter: char, param: string)
    requires Recognised(letter)
    ensures var modes := [if on then '+' else '-', letter];
            ModeLetters(e.chan, me, modes, [param]) ==
            ApplyEvent(Effect(e.chan, []), me, Event(on, letter, 0), [param])
  {
    var modes := [if on then '+' else '-', letter];
    assert modes[1..] == [letter] && [letter][1..] == "";
    assert Events("", on, 1, 1) == [];
    assert Events([letter], on, 0, 1) == [Event(on, letter, 0)] + [];
    assert Events(modes, false, 0, 1) == [Event(on, letter, 0)];
    var ev := Event(on, letter, 0);
    assert [ev][1..] == [];
    assert forall e' :: ApplyEvents(e', me, [], [param]) == Some(e');
    hide ApplyEvent;
    assert ApplyEvents(Effect(e.chan, []), me, [ev], [param]) == ApplyEvent(Effect(e.chan, []), me, ev, [param]);
  }

  /** One rank letter on a channel where ranks are exclusive and held by members. `oper`: the
      caller is an IRC operator. */
  lemma RankTable(ch: Chan, me: Caller, on: bool, letter: char, nick: string)
    requires ch.Ranked() && ch.Exclusive() && Lower(nick) in me.known
    requires letter == 'o' || letter == 'h' || letter == 'v'
    ensures var r := ModeLetters(ch, me, [if on then '+' else '-', letter], [nick]);
            var t, isOp, isHalf := Lower(nick), me.key in ch.ops, me.key in ch.halfs;
            var member := t in ch.users;
            r.Some? && RanksOnly(ch, r.value.chan, t) &&
            match (on, letter)
            case (true, 'o') =>
              var given := member && (me.oper || isOp);
              Stands(r.value.chan, t, given || t in ch.ops, !given && t in ch.halfs, !given && t in ch.voices)
            case (true, 'h') =>
              var given := member && (me.oper || isOp);
              Stands(r.value.chan, t, !given && t in ch.ops, given || t in ch.halfs, !given && t in ch.voices)
            case (true, _) =>
              var given := member && (me.oper || isOp || isHalf);
              Stands(r.value.chan, t, !given && t in ch.ops, !given && t in ch.halfs, given || t in ch.voices)
            case (false, 'o') => Stands(r.value.chan, t, t in ch.ops && !isOp, t in ch.halfs, t in ch.voices)
            case (false, 'h') => Stands(r.value.chan, t, t in ch.ops, false, t in ch.voices)
            case (false, _) =>
              Stands(r.value.chan, t, t in ch.ops, t in ch.halfs, t in ch.voices && !(isOp || isHalf))
  {
    OneLetter(Effect(ch, []), me, on, letter, nick);
    hide ModeLetters;
  }

  /** MODE with one rank letter, for each sign, each standing of the caller and each rank of
      the target: who may, and in which rank sets the target stands afterwards. */
  lemma OneRankLetter(n: Net, k: string, c: string, registered: bool, maxbans: nat, now: int, on: bool, letter: char,
                      nick: string)
    requires Coherent(n) && RanksWithin(n) && ExclusiveRanks(n)
    requires k in n.users && c in n.channels && Lower(nick) in n.users
    requires letter == 'o' || letter == 'h' || letter == 'v'
    ensures var r := Step(n, CMode(k, c, registered, maxbans, now, [if on then '+' else '-', letter], [nick]));
            var ch, t, irc := n.channels[c].body, Lower(nick), n.users[k].o;
            var isOp, isHalf := k in ch.ops, k in ch.halfs;
            var may := t in ch.users && (registered || irc) && (isOp || isHalf || irc);
            r.Some? && OnlyAt(n, r.value, {}, {c}) && c in r.value.channels &&
            r.value.channels[c].name == n.channels[c].name && RanksOnly(ch, r.value.channels[c].body, t) &&
            var ch' := r.value.channels[c].body;
            match (on, letter)
            case (true, 'o') =>
              var given := may && (irc || isOp);
              Stands(ch', t, given || t in ch.ops, !given && t in ch.halfs, !given && t in ch.voices)
            case (true, 'h') =>
              var given := may && (irc || isOp);
              Stands(ch', t, !given && t in ch.ops, given || t in ch.halfs, !given && t in ch.voices)
            case (true, _) =>
              var given := may && (irc || isOp || isHalf);
              Stands(ch', t, !given && t in ch.ops, !given && t in ch.halfs, given || t in ch.voices)
            case (false, 'o') => Stands(ch', t, t in ch.ops && !(may && isOp), t in ch.halfs, t in ch.voices)
            case (false, 'h') => Stands(ch', t, t in ch.ops, t in ch.halfs && !may, t in ch.voices)
            case (false, _) =>
              Stands(ch', t, t in ch.ops, t in ch.halfs, t in ch.voices && !(may && (isOp || isHalf)))
  {
    hide Coherent;
    hide ModeLetters;
    var ch := n.channels[c].body;
    assert ch.Ranked() && ch.Exclusive();
    RankTable(ch, Caller(k, n.users[k].nick, n.users[k].o, n.users.Keys, maxbans, now), on, letter, nick);
    hide Stands;
    hide RanksOnly;
  }

  /** What MODE announces for one rank letter: nothing where nothing may change, the rank taken
      before the one given, and `-h` of an operator even where there was none to take. */
  lemma RankAnnounced(ch: Chan, me: Caller, on: bool, letter: char, nick: string)
    requires Lower(nick) in me.known && (letter == 'o' || letter == 'h' || letter == 'v')
    ensures var r := ModeLetters(ch, me, [if on then '+' else '-', letter], [nick]);
            var t, isOp, isHalf := Lower(nick), me.key in ch.ops, me.key in ch.halfs;
            var o, h, v := IfHeld(t in ch.ops, Op, t), IfHeld(t in ch.halfs, Half, t), IfHeld(t in ch.voices, Voice, t);
            r.Some? && r.value.changes ==
            if t !in ch.users then []
            else
              match (on, letter)
              case (true, 'o') => if t !in ch.ops && (me.oper || isOp) then v + h + [Change(true, Op, t)] else []
              case (true, 'h') => if t !in ch.halfs && (me.oper || isOp) then o + v + [Change(true, Half, t)] else []
              case (true, _) =>
                if t !in ch.voices && (me.oper || isOp || isHalf) then o + h + [Change(true, Voice, t)] else []
              case (false, 'o') => if isOp then o else []
              case (false, 'h') => if isOp || t in ch.halfs then [Change(false, Half, t)] else []
              case (false, _) => if isOp || isHalf then v else []
  {
    OneLetter(Effect(ch, []), me, on, letter, nick);
    hide ModeLetters;
    var e := Effect(ch, []);
    assert ApplyEvent(e, me, Event(on, letter, 0), [nick]) ==
           Some(RankLetter(e, me.key, me.oper, on, RankOf(letter), Lower(nick)));
    if on { GivenAnnounced(ch, me.key, me.oper, RankOf(letter), Lower(nick)); }
    else { TakenAnnounced(ch, me.key, me.oper, RankOf(letter), Lower(nick)); }
    hide ApplyEvent;
    hide RankLetter;
  }

  function IfHeld(held: bool, r: Rank, t: string): seq<Change> { if held then [Change(false, r, t)] else [] }

  lemma GivenAnnounced(ch: Chan, k: string, irc: bool, r: Rank, t: string)
    ensures var o, h, v := IfHeld(t in ch.ops, Op, t), IfHeld(t in ch.halfs, Half, t), IfHeld(t in ch.voices, Voice, t);
            var isOp, isHalf := k in ch.ops, k in ch.halfs;
            RankLetter(Effect(ch, []), k, irc, true, r, t).changes ==
            if t !in ch.users then []
            else
              match r
              case Op => if t !in ch.ops && (irc || isOp) then v + h + [Change(true, Op, t)] else []
              case Half => if t !in ch.halfs && (irc || isOp) then o + v + [Change(true, Half, t)] else []
              case Voice =>
                if t !in ch.voices && (irc || isOp || isHalf) then o + h + [Change(true, Voice, t)] else []
  {}

  lemma TakenAnnounced(ch: Chan, k: string, irc: bool, r: Rank, t: string)
    ensures var o, v := IfHeld(t in ch.ops, Op, t), IfHeld(t in ch.voices, Voice, t);
            var isOp, isHalf := k in ch.ops, k in ch.halfs;
            RankLetter(Effect(ch, []), k, irc, false, r, t).changes ==
            if t !in ch.users then []
            else
              match r
              case Op => if isOp then o else []
              case Half => if isOp || t in ch.halfs then [Change(false, Half, t)] else []
              case Voice => if isOp || isHalf then v else []
  {}

  /** The list that a ban letter leaves, where `i` is the place of the first ban written exactly
      so: a mask that some ban matches as text is not added, nor one beyond `maxbans`. */
  function ListAfter(list: seq<Ban>, verdict: Verdict, on: bool, maxbans: nat, b: Ban, i: nat): seq<Ban> {
    if on then (if verdict == No && |list| < maxbans then list + [b] else list)
    else if verdict == Yes && i < |list| then list[..i] + list[i + 1..] else list
  }

  ghost predicate FirstAt(list: seq<Ban>, mask: string, i: nat) {
    i <= |list| && (i < |list| ==> list[i].mask == mask) && forall j :: 0 <= j < i ==> list[j].mask != mask
  }

  lemma BanTable(ch: Chan, me: Caller, on: bool, permanent: bool, mask: string, i: nat)
    requires IsBan(ch, Lower(mask)) != Undefined && FirstAt(if permanent then ch.pbans else ch.bans, mask, i)
    ensures var r := ModeLetters(ch, me, [if on then '+' else '-', if permanent then 'B' else 'b'], [mask]);
            var list := ListAfter(if permanent then ch.pbans else ch.bans, IsBan(ch, Lower(mask)), on, me.maxbans,
                                  Ban(mask, me.nick, me.now), i);
            r.Some? && r.value.chan == if permanent then ch.(pbans := list) else ch.(bans := list)
  {
    hide IsBan;
    OneLetter(Effect(ch, []), me, on, if permanent then 'B' else 'b', mask);
    BanLetterSo(ch, if permanent then ch.pbans else ch.bans, me, on, mask, i);
    hide ModeLetters;
    hide ChannelState.BanLetter;
    hide ListAfter;
  }

  lemma BanLetterSo(ch: Chan, list: seq<Ban>, me: Caller, on: bool, mask: string, i: nat)
    requires IsBan(ch, Lower(mask)) != Undefined && FirstAt(list, mask, i)
    ensures ChannelState.BanLetter(ch, list, me, on, mask) ==
            Some(ListAfter(list, IsBan(ch, Lower(mask)), on, me.maxbans, Ban(mask, me.nick, me.now), i))
  {
    hide IsBan;
    UnbanAt(list, mask, i);
    hide Unban;
  }

  /** MODE with one ban letter: `b` works on the one list, `B` on the other, for the same
      callers as a rank letter. */
  lemma OneBanLetter(n: Net, k: string, c: string, registered: bool, maxbans: nat, now: int, on: bool, permanent: bool,
                     mask: string, i: nat)
    requires k in n.users && c in n.channels && IsBan(n.channels[c].body, Lower(mask)) != Undefined
    requires FirstAt(if permanent then n.channels[c].body.pbans else n.channels[c].body.bans, mask, i)
    ensures var letter := if permanent then 'B' else 'b';
            var r := Step(n, CMode(k, c, registered, maxbans, now, [if on then '+' else '-', letter], [mask]));
            var ch, u := n.channels[c].body, n.users[k];
            var may := (registered || u.o) && (k in ch.ops || k in ch.halfs || u.o);
            var list := ListAfter(if permanent then ch.pbans else ch.bans, IsBan(ch, Lower(mask)), on, maxbans,
                                  Ban(mask, u.nick, now), i);
            r.Some? && (!may ==> r.value == n) &&
            (may ==>
              OnlyAt(n, r.value, {}, {c}) && c in r.value.channels &&
              r.value.channels[c] == n.channels[c].(body := if permanent then ch.(pbans := list)
                                                            else ch.(bans := list)))
  {
    hide IsBan;
    var ch, u := n.channels[c].body, n.users[k];
    BanTable(ch, Caller(k, u.nick, u.o, n.users.Keys, maxbans, now), on, permanent, mask, i);
    hide ModeLetters;
    hide ListAfter;
  }

  lemma {:induction false} UnbanAt(list: seq<Ban>, mask: string, i: nat)
    requires i <= |list| && (i < |list| ==> list[i].mask == mask) && forall j :: 0 <= j < i ==> list[j].mask != mask
    ensures Unban(list, mask) == if i < |list| then list[..i] + list[i + 1..] else list
  {
    if i == 0 {
      if list != [] { assert list[..0] + list[1..] == list[1..]; }
    } else {
      UnbanAt(list[1..], mask, i - 1);
      DropAt(list, i);
    }
  }

  lemma DropAt(list: seq<Ban>, i: nat)
    requires 0 < i <= |list|
    ensures [list[0]] + list[1..] == list
    ensures i < |list| ==> list[..i] + list[i + 1..] == [list[0]] + (list[1..][..i - 1] + list[1..][i..])
  {}

  lemma {:induction false} EventsShift(modes: string, on: bool, j: nat, e: Effect, me: Caller, params: seq<string>)
    requires j <= |params|
    ensures ApplyEvents(e, me, Events(modes, on, j, |params|), params) ==
            ApplyEvents(e, me, Events(modes, on, 0, |params| - j), params[j..])
    decreases |modes|
  {
    hide ApplyEvent;
    if modes != "" && j < |params| {
      var c, rest := modes[0], modes[1..];
      EventsShift(rest, true, j, e, me, params);
      EventsShift(rest, false, j, e, me, params);
      EventsShift(rest, on, j, e, me, params);
      if c != '+' && c != '-' && Recognised(c) {
        var evs, evs' := Events(rest, on, j + 1, |params|), Events(rest, on, 1, |params| - j);
        assert ([Event(on, c, j)] + evs)[1..] == evs && ([Event(on, c, 0)] + evs')[1..] == evs';
        SameEvent(e, me, on, c, j, params);
        match ApplyEvent(e, me, Event(on, c, j), params)
        case None =>
        case Some(e') =>
          EventsShift(rest, on, j + 1, e', me, params);
          EventsShift(rest, on, 1, e', me, params[j..]);
          assert params[j..][1..] == params[j + 1..];
      }
    }
  }

  lemma SameEvent(e: Effect, me: Caller, on: bool, c: char, j: nat, params: seq<string>)
    requires j < |params|
    ensures ApplyEvent(e, me, Event(on, c, j), params) == ApplyEvent(e, me, Event(on, c, 0), params[j..])
  {}

  /** The letters of a command act in turn: with as many parameters as letters in the first
      part, the second part acts on what the first one leaves, under its last sign. */
  lemma {:induction false} LettersInTurn(e: Effect, me: Caller, on: bool, m1: string, m2: string, p1: seq<string>,
                                         p2: seq<string>)
    requires LetterCount(m1) == |p1|
    ensures ApplyEvents(e, me, Events(m1 + m2, on, 0, |p1 + p2|), p1 + p2) ==
            match ApplyEvents(e, me, Events(m1, on, 0, |p1|), p1)
            case None => None
            case Some(e1) => ApplyEvents(e1, me, Events(m2, SignAfter(m1, on), 0, |p2|), p2)
    decreases |m1|
  {
    hide ApplyEvent;
    if m1 == "" {
      assert "" + m2 == m2 && [] + p2 == p2 && p1 + p2 == p2;
    } else {
      var c, rest, n := m1[0], m1[1..], |p1 + p2|;
      assert (m1 + m2)[0] == c && (m1 + m2)[1..] == rest + m2;
      SignAfterStep(m1, on);
      if n == 0 {
        NoParameters(e, me, m1 + m2, on, p1 + p2);
        NoParameters(e, me, m1, on, p1);
        NoParameters(e, me, m2, SignAfter(m1, on), p2);
      } else if c == '+' || c == '-' {
        LettersInTurn(e, me, c == '+', rest, m2, p1, p2);
        if |p1| == 0 { NoParameters(e, me, m1, on, p1); NoParameters(e, me, rest, c == '+', p1); }
      } else if Recognised(c) {
        LetterFirst(e, me, on, m1 + m2, p1 + p2);
        LetterFirst(e, me, on, m1, p1);
        assert (p1 + p2)[1..] == p1[1..] + p2 && (p1 + p2)[0] == p1[0];
        FirstOnly(e, me, on, c, p1 + p2, p1);
        match ApplyEvent(e, me, Event(on, c, 0), p1)
        case None =>
        case Some(e') => LettersInTurn(e', me, on, rest, m2, p1[1..], p2);
      } else {
        LettersInTurn(e, me, on, rest, m2, p1, p2);
        if |p1| == 0 { NoParameters(e, me, m1, on, p1); NoParameters(e, me, rest, on, p1); }
      }
    }
  }

  /** A command without a sign reads as one under a minus. */
  lemma NoSignTakes(ch: Chan, me: Caller, modes: string, params: seq<string>)
    ensures ModeLetters(ch, me, modes, params) == ModeLetters(ch, me, "-" + modes, params)
  {
    hide ApplyEvents;
    var signed := "-" + modes;
    assert signed[0] == '-' && signed[1..] == modes;
  }

  /** Whatever the letters, MODE does nothing for an unknown user or channel, to an unregistered
      channel but by an IRC operator, and by anybody without rank or operator flag. */
  lemma ModeRefused(n: Net, k: string, c: string, registered: bool, maxbans: nat, now: int, modes: string,
                    params: seq<string>)
    requires k !in n.users || c !in n.channels || (!registered && !n.users[k].o) ||
             (!n.users[k].o && k !in n.channels[c].body.ops && k !in n.channels[c].body.halfs)
    ensures Step(n, CMode(k, c, registered, maxbans, now, modes, params)) == Some(n)
  {
    hide ModeLetters;
  }

  lemma NoParameters(e: Effect, me: Caller, modes: string, on: bool, params: seq<string>)
    requires |params| == 0
    ensures ApplyEvents(e, me, Events(modes, on, 0, |params|), params) == Some(e)
  {}

  lemma LetterFirst(e: Effect, me: Caller, on: bool, modes: string, params: seq<string>)
    requires modes != "" && |params| > 0 && Recognised(modes[0])
    ensures ApplyEvents(e, me, Events(modes, on, 0, |params|), params) ==
            match ApplyEvent(e, me, Event(on, modes[0], 0), params)
            case None => None
            case Some(e') => ApplyEvents(e', me, Events(modes[1..], on, 0, |params| - 1), params[1..])
  {
    hide ApplyEvent;
    var rest := Events(modes[1..], on, 1, |params|);
    assert ([Event(on, modes[0], 0)] + rest)[1..] == rest;
    match ApplyEvent(e, me, Event(on, modes[0], 0), params)
    case None =>
    case Some(e') => EventsShift(modes[1..], on, 1, e', me, params);
  }

  lemma FirstOnly(e: Effect, me: Caller, on: bool, c: char, p: seq<string>, q: seq<string>)
    requires |p| > 0 && |q| > 0 && p[0] == q[0]
    ensures ApplyEvent(e, me, Event(on, c, 0), p) == ApplyEvent(e, me, Event(on, c, 0), q)
  {}

  // ---------------------------------------------------------------- CheckModes and the levels

  /** The user holds the rank that the services call for, and no other: a stored level, in any
      case of its letters, wins over being founder or IRC operator; without either, AUTOVOICE
      gives voice. */
  ghost predicate AsServicesSay(ch: Chan, t: string, level: string, founder: bool, irc: bool, autovoice: bool) {
    var l := Upper(level);
    if l == "VOP" then Stands(ch, t, false, false, true)
    else if l == "HOP" then Stands(ch, t, false, true, false)
    else if l == "AOP" || l == "SOP" then Stands(ch, t, true, false, false)
    else if founder || irc then Stands(ch, t, true, false, false)
    else Stands(ch, t, false, false, autovoice)
  }

  lemma LevelsDiffer()
    ensures "VOP" != "HOP" && "VOP" != "AOP" && "VOP" != "SOP" && "HOP" != "AOP" && "HOP" != "SOP" && "AOP" != "SOP"
  {
    assert "VOP"[0] == 'V' && "HOP"[0] == 'H' && "AOP"[0] == 'A' && "SOP"[0] == 'S';
  }

  lemma TargetIsServices(ch: Chan, t: string, level: string, founder: bool, irc: bool, autovoice: bool)
    requires AtTarget(ch, t, autovoice, Access(level, founder, irc))
    ensures AsServicesSay(ch, t, level, founder, irc, autovoice)
  {
    LevelsDiffer();
    hide Upper;
  }

  lemma OthersChecked(ch: Chan, t: string, noop: bool, autovoice: bool, access: nat)
    ensures var ch' := CheckModes(Effect(ch, []), t, noop, autovoice, access).chan;
            RanksOnly(ch, ch', t) && (noop || t !in ch.users ==> ch' == ch)
  {}

  /** `CheckModes` in the channels of `done`: nothing else changes anywhere; nothing at all for a
      user with the option NOOP. A member without a rank then has what the services say. */
  lemma CheckedOnce(n: Net, s: Services, k: string, done: set<string>, c: string)
    requires k in n.users && c in n.channels
    ensures var n', u, rec := CheckedIn(n, s, k, done), n.users[k], n.channels[c];
            n'.users == n.users && n'.channels.Keys == n.channels.Keys && n'.channels[c].name == rec.name &&
            RanksOnly(rec.body, n'.channels[c].body, k) &&
            (c !in done || s.noop(u.nick) || k !in rec.body.users ==> n'.channels[c] == rec) &&
            (c in done && !s.noop(u.nick) && k in rec.body.users && Stands(rec.body, k, false, false, false) ==>
              AsServicesSay(n'.channels[c].body, k, s.level(u.nick, rec.name), s.founder(u.nick, rec.name), u.o,
                            s.autovoice(rec.name)))
  {
    var n', u, rec := CheckedIn(n, s, k, done), n.users[k], n.channels[c];
    var level, founder, auto := s.level(u.nick, rec.name), s.founder(u.nick, rec.name), s.autovoice(rec.name);
    var access := Access(level, founder, u.o);
    OthersChecked(rec.body, k, s.noop(u.nick), auto, access);
    var e := Effect(rec.body, []);
    if !s.noop(u.nick) && k in rec.body.users && Stands(rec.body, k, false, false, false) {
      FromNoRank(e, k, auto, access);
      TargetIsServices(CheckModes(e, k, false, auto, access).chan, k, level, founder, u.o, auto);
    }
    hide CheckModes;
    hide Access;
    hide AsServicesSay;
  }

  lemma FromNoRank(e: Effect, t: string, autovoice: bool, access: nat)
    requires t in e.chan.users && Rankless(e.chan, t)
    ensures AtTarget(CheckModes(e, t, false, autovoice, access).chan, t, autovoice, access)
  {}

  /** And after two calls any member has what the services say, where ranks are exclusive. */
  lemma CheckedTwice(n: Net, s: Services, k: string, done: set<string>, c: string)
    requires k in n.users && c in n.channels && c in done && k in n.channels[c].body.users
    requires n.channels[c].body.Exclusive() && !s.noop(n.users[k].nick)
    ensures var n', u, rec := CheckedIn(CheckedIn(n, s, k, done), s, k, done), n.users[k], n.channels[c];
            c in n'.channels &&
            AsServicesSay(n'.channels[c].body, k, s.level(u.nick, rec.name), s.founder(u.nick, rec.name), u.o,
                          s.autovoice(rec.name))
  {
    var n1, n2 := CheckedIn(n, s, k, done), CheckedIn(CheckedIn(n, s, k, done), s, k, done);
    var u, rec := n.users[k], n.channels[c];
    var level, founder, auto := s.level(u.nick, rec.name), s.founder(u.nick, rec.name), s.autovoice(rec.name);
    var access := Access(level, founder, u.o);
    var e := Effect(rec.body, []);
    CheckModesConverges(e, k, auto, access);
    var e1 := CheckModes(e, k, false, auto, access);
    ChangesDoNotCount(e1, k, auto, access);
    hide CheckModes;
    assert n1.channels[c].body == e1.chan && n1.channels[c].name == rec.name;
    assert n2.channels[c].body == CheckModes(Effect(e1.chan, []), k, false, auto, access).chan;
    TargetIsServices(n2.channels[c].body, k, level, founder, u.o, auto);
  }

  lemma ChangesDoNotCount(e: Effect, t: string, autovoice: bool, access: nat)
    ensures CheckModes(e, t, false, autovoice, access).chan ==
            CheckModes(Effect(e.chan, []), t, false, autovoice, access).chan
  {}

  // ---------------------------------------------------------------- JOIN and SAJOIN

  /** The characters a channel name may not have. */
  lemma NamesExact(name: string)
    ensures CheckChan(name) <==>
            |name| > 0 && name[0] == '#' &&
            '\'' !in name && '"' !in name && ';' !in name && '@' !in name && '*' !in name && '/' !in name &&
            ',' !in name && '.' !in name
  {}

  /** `k` is in `c` now, which was opened under `name` where it was missing; nothing else has
      changed but the rank of `k` there. */
  ghost predicate Entered(n: Net, n': Net, k: string, c: string, name: string) {
    k in n.users && k in n'.users && c in n'.channels && OnlyAt(n, n', {k}, {c}) &&
    n'.users[k] == n.users[k].(channels := n.users[k].channels + {c}) &&
    var ch := if c in n.channels then n.channels[c].body else EMPTY;
    var ch' := n'.channels[c].body;
    n'.channels[c].name == (if c in n.channels then n.channels[c].name else name) &&
    ch'.users == ch.users + {k} && ch'.bans == ch.bans && ch'.pbans == ch.pbans && ch'.orphaned == ch.orphaned &&
    RanksBut(ch, ch', k)
  }

  lemma EnteredSo(n: Net, k: string, name: string)
    requires k in n.users
    ensures var n1 := Enter(OpenChannel(n, name), k, Lower(name));
            Entered(n, n1, k, Lower(name), name) &&
            var ch' := n1.channels[Lower(name)].body;
            if Lower(name) in n.channels then
              var ch := n.channels[Lower(name)].body; Stands(ch', k, k in ch.ops, k in ch.halfs, k in ch.voices)
            else Stands(ch', k, false, false, false)
  {}

  /** The rank on entry, for somebody who held none: by the access the services give. */
  ghost predicate RankOnEntry(ch: Chan, k: string, p: Policy) {
    var level := if p.autovoice && p.access == 0 then 1 else p.access;
    if p.noop then Stands(ch, k, false, false, false)
    else Stands(ch, k, level > 2, level == 2, level == 1)
  }

  lemma SettledSo(n: Net, k: string, name: string, p: Policy)
    requires k in n.users
    ensures var c, n' := Lower(name), Settle(Enter(OpenChannel(n, name), k, Lower(name)), k, Lower(name), p);
            Entered(n, n', k, c, name) &&
            ((c in n.channels ==> Stands(n.channels[c].body, k, false, false, false)) ==>
              RankOnEntry(n'.channels[c].body, k, p))
  {
    var c := Lower(name);
    var n1 := Enter(OpenChannel(n, name), k, c);
    EnteredSo(n, k, name);
    hide Enter;
    hide OpenChannel;
    var ch := n1.channels[c].body;
    var ch' := CheckModes(Effect(ch, []), k, p.noop, p.autovoice, p.access).chan;
    OthersChecked(ch, k, p.noop, p.autovoice, p.access);
    if Stands(ch, k, false, false, false) { EntryRank(ch, k, p); }
    hide CheckModes;
    hide RankOnEntry;
    EnteredThen(n, n1, k, c, name, ch');
    hide Entered;
    assert WithBody(n1, c, ch').channels[c].body == ch';
  }

  lemma EnteredThen(n: Net, n1: Net, k: string, c: string, name: string, body: Chan)
    requires Entered(n, n1, k, c, name) && RanksOnly(n1.channels[c].body, body, k)
    ensures Entered(n, WithBody(n1, c, body), k, c, name)
  {}

  lemma EntryRank(ch: Chan, k: string, p: Policy)
    requires k in ch.users && Stands(ch, k, false, false, false)
    ensures RankOnEntry(CheckModes(Effect(ch, []), k, p.noop, p.autovoice, p.access).chan, k, p)
  {}

  /** The limits: on the name, and on the number of channels of the user. */
  ghost predicate WithinLimits(joined: nat, name: string, p: Policy) {
    CheckChan(name) && 2 <= |name| <= p.chanlen && (joined < p.maxchannels || p.exception != 0) &&
    (p.exception > 0 ==> joined < p.exception)
  }

  /** What the channel's modes and its akicks let in. */
  ghost predicate ModesLet(u: UserRec, p: Policy) {
    (p.onlyreg ==> u.r) && (p.onlysecure ==> u.z) && (p.onlyweb ==> u.w) && (p.onlyaccess ==> p.access > 0) &&
    !p.geoblocked && !p.akick
  }

  /** No key is wanted, or the next word is one: an empty word or the key itself. */
  ghost predicate KeyFits(p: Policy, args: seq<string>, j: nat) {
    p.key == "" || (3 <= |args| && j < |args| && (args[j] == "" || args[j] == p.key))
  }

  /** The channel is new, or neither mask of the user is banned and it is not on flood. */
  ghost predicate DoorOpen(n: Net, u: UserRec, c: string, p: Policy) {
    c in n.channels ==>
      IsBan(n.channels[c].body, u.nick + "!" + u.ident + "@" + u.cloak) == No &&
      IsBan(n.channels[c].body, u.nick + "!" + u.ident + "@" + u.vhost) == No && !p.flooding
  }

  /** JOIN of a registered channel by somebody who is no member, where no mask has a `?`: who
      becomes one. An IRC operator is held to the limits only. The others stay out, the state
      as it was; and a key word is used up by whoever comes so far as to give a right one. */
  lemma JoinTable(n: Net, k: string, name: string, p: Policy, args: seq<string>, j: nat)
    requires k in n.users && p.registered
    requires Lower(name) in n.channels ==>
               k !in n.channels[Lower(name)].body.users && QuestionFree(n.channels[Lower(name)].body)
    ensures var r, c, u := JoinOne(n, k, name, p, args, j), Lower(name), n.users[k];
            var limits := WithinLimits(|u.channels|, name, p);
            var enters := limits && (u.o || (ModesLet(u, p) && KeyFits(p, args, j) && DoorOpen(n, u, c, p)));
            (enters ==> r.Some? && Entered(n, r.value.net, k, c, name)) &&
            (r.Some? && !enters ==> r.value.net == n) &&
            (r.Some? ==>
              r.value.j ==
              if limits && !u.o && ModesLet(u, p) && p.key != "" && KeyFits(p, args, j) then j + 1 else j)
  {
    var c, u := Lower(name), n.users[k];
    SettledSo(n, k, name, p);
    if c in n.channels {
      NeverUndefined(n, k, c, p);
      VerdictsDefined(u, n.channels[c].body);
    }
    hide CheckChan;
    hide IsBan;
    hide Settle;
    hide Enter;
    hide OpenChannel;
    hide Entered;
    hide RankOnEntry;
  }

  lemma VerdictsDefined(u: UserRec, ch: Chan)
    requires QuestionFree(ch)
    ensures IsBan(ch, u.nick + "!" + u.ident + "@" + u.cloak) != Undefined
    ensures IsBan(ch, u.nick + "!" + u.ident + "@" + u.vhost) != Undefined
  {
    var a, b := Lower(u.nick + "!" + u.ident + "@" + u.cloak), Lower(u.nick + "!" + u.ident + "@" + u.vhost);
    ScanDefined(ch.bans, a);
    ScanDefined(ch.pbans, a);
    ScanDefined(ch.bans, b);
    ScanDefined(ch.pbans, b);
  }

  /** The rank of whoever has entered, having held none. */
  lemma JoinRank(n: Net, k: string, name: string, p: Policy, args: seq<string>, j: nat)
    requires k in n.users && p.registered
    requires Lower(name) in n.channels ==> k !in n.channels[Lower(name)].body.users &&
                                           Stands(n.channels[Lower(name)].body, k, false, false, false)
    ensures var r, c := JoinOne(n, k, name, p, args, j), Lower(name);
            r.Some? && c in r.value.net.channels && k in r.value.net.channels[c].body.users ==>
              RankOnEntry(r.value.net.channels[c].body, k, p)
  {
    SettledSo(n, k, name, p);
    hide CheckChan;
    hide IsBan;
    hide Settle;
    hide Enter;
    hide OpenChannel;
    hide Entered;
    hide RankOnEntry;
    hide RefusedIn;
    hide TurnedAway;
    hide Barred;
    hide Stands;
  }

  /** A member gets nothing from a JOIN, nor does anybody outside the limits. */
  lemma JoinNothing(n: Net, k: string, name: string, p: Policy, args: seq<string>, j: nat)
    requires k in n.users
    requires !WithinLimits(|n.users[k].channels|, name, p) ||
             (Lower(name) in n.channels && k in n.channels[Lower(name)].body.users)
    ensures JoinOne(n, k, name, p, args, j).Some? ==> JoinOne(n, k, name, p, args, j).value.net == n
  {
    hide CheckChan;
    hide Settle;
    hide Enter;
    hide OpenChannel;
  }

  /** An unregistered channel takes in everybody within the limits, without a rank; whoever
      opens it is its operator. */
  lemma JoinUnregistered(n: Net, k: string, name: string, p: Policy, args: seq<string>, j: nat)
    requires k in n.users && !p.registered && WithinLimits(|n.users[k].channels|, name, p)
    requires Lower(name) in n.channels ==> k !in n.channels[Lower(name)].body.users
    ensures var r, c := JoinOne(n, k, name, p, args, j), Lower(name);
            r.Some? && r.value.j == j && Entered(n, r.value.net, k, c, name) &&
            var ch' := r.value.net.channels[c].body;
            if c in n.channels then
              var ch := n.channels[c].body; Stands(ch', k, k in ch.ops, k in ch.halfs, k in ch.voices)
            else Stands(ch', k, true, false, false)
  {
    FreeSo(n, k, name);
    hide CheckChan;
    hide JoinFree;
    hide Entered;
    hide Stands;
  }

  lemma FreeSo(n: Net, k: string, name: string)
    requires k in n.users && (Lower(name) in n.channels ==> k !in n.channels[Lower(name)].body.users)
    ensures var c, n' := Lower(name), JoinFree(n, k, name);
            Entered(n, n', k, c, name) &&
            var ch' := n'.channels[c].body;
            if c in n.channels then
              var ch := n.channels[c].body; Stands(ch', k, k in ch.ops, k in ch.halfs, k in ch.voices)
            else Stands(ch', k, true, false, false)
  {
    var c := Lower(name);
    EnteredSo(n, k, name);
    if c in n.channels {
      assert OpenChannel(n, name) == n;
    } else {
      var n1 := Enter(OpenChannel(n, name), k, c);
      EnteredThen(n, n1, k, c, name, n1.channels[c].body.(ops := {k}));
    }
    hide Entered;
    hide Enter;
  }

  /** A whole JOIN of one channel takes its key from the third word on; several channels are
      taken in turn. */
  lemma JoinStep(n: Net, k: string, name: string, policy: string -> Policy, args: seq<string>)
    requires k in n.users
    ensures Step(n, CJoin(k, [name], policy, args)) ==
            match JoinOne(n, k, name, policy(name), args, 2) case None => None case Some(r) => Some(r.net)
  {
    JoinedStays(n, k, name, policy(name), args, 2);
    hide JoinOne;
    assert [name][1..] == [];
    assert forall m: Net, j: nat | k in m.users :: JoinAll(m, k, [], policy, args, j) == Some(JoinResult(m, j));
  }

  lemma JoinedStays(n: Net, k: string, name: string, p: Policy, args: seq<string>, j: nat)
    requires k in n.users
    ensures JoinOne(n, k, name, p, args, j).Some? ==> k in JoinOne(n, k, name, p, args, j).value.net.users
  {
    hide CheckModes;
    hide CheckChan;
    hide RefusedIn;
    hide Barred;
    hide TurnedAway;
  }

  lemma {:induction false} JoinsInTurn(n: Net, k: string, a: seq<string>, b: seq<string>, policy: string -> Policy,
                                       args: seq<string>, j: nat)
    requires k in n.users
    ensures JoinAll(n, k, a + b, policy, args, j) ==
            match JoinAll(n, k, a, policy, args, j)
            case None => None
            case Some(r) => if k in r.net.users then JoinAll(r.net, k, b, policy, args, r.j) else None
    decreases |a|
  {
    hide JoinOne;
    if a == [] {
      assert a + b == b;
    } else {
      assert (a + b)[0] == a[0] && (a + b)[1..] == a[1..] + b;
      JoinedStays(n, k, a[0], policy(a[0]), args, j);
      match JoinOne(n, k, a[0], policy(a[0]), args, j)
      case None =>
      case Some(r) => JoinsInTurn(r.net, k, a[1..], b, policy, args, r.j);
    }
  }

  /** SAJOIN of one channel by an IRC operator: whoever is named enters, for any name that is
      a channel's and no longer than allowed, whatever the channel's modes, keys and bans. */
  lemma SajoinOne(n: Net, k: string, t: string, name: string, policy: string -> Policy)
    requires k in n.users && t in n.users
    requires Lower(name) in n.channels ==> Stands(n.channels[Lower(name)].body, t, false, false, false)
    ensures var r, c, p := Step(n, CForce(k, t, [name], policy)), Lower(name), policy(name);
            var member := c in n.channels && t in n.channels[c].body.users;
            r.Some? &&
            if n.users[k].o && CheckChan(name) && 2 <= |name| <= p.chanlen && !member then
              Entered(n, r.value, t, c, name) &&
              var ch' := r.value.channels[c].body;
              if p.registered then RankOnEntry(ch', t, p) else Stands(ch', t, c !in n.channels, false, false)
            else r.value == n
  {
    var c, p := Lower(name), policy(name);
    SettledSo(n, t, name, p);
    if c !in n.channels || t !in n.channels[c].body.users { FreeSo(n, t, name); }
    ForceStep(n, k, t, name, policy);
    hide Step;
    hide CheckChan;
    hide Settle;
    hide Enter;
    hide OpenChannel;
    hide Entered;
    hide RankOnEntry;
  }

  lemma ForceStep(n: Net, k: string, t: string, name: string, policy: string -> Policy)
    requires k in n.users && t in n.users
    ensures Step(n, CForce(k, t, [name], policy)) ==
            Some(if n.users[k].o then ForceOne(n, t, name, policy(name)) else n)
  {
    hide ForceOne;
    assert [name][1..] == [];
    var n1 := ForceOne(n, t, name, policy(name));
    ForcedStays(n, t, name, policy(name));
    assert ForceAll(n1, t, [], policy) == n1;
  }

  lemma ForcedStays(n: Net, t: string, name: string, p: Policy)
    requires t in n.users
    ensures t in ForceOne(n, t, name, p).users
  {
    hide CheckModes;
    hide CheckChan;
  }

  lemma {:induction false} SajoinsInTurn(n: Net, t: string, a: seq<string>, b: seq<string>, policy: string -> Policy)
    requires t in n.users
    ensures var n1 := ForceAll(n, t, a, policy);
            t in n1.users && ForceAll(n, t, a + b, policy) == ForceAll(n1, t, b, policy)
    decreases |a|
  {
    hide ForceOne;
    if a == [] {
      assert a + b == b;
    } else {
      assert (a + b)[0] == a[0] && (a + b)[1..] == a[1..] + b;
      ForcedStays(n, t, a[0], policy(a[0]));
      SajoinsInTurn(ForceOne(n, t, a[0], policy(a[0])), t, a[1..], b, policy);
    }
  }

  // ---------------------------------------------------------------- PART, KICK and QUIT

  /** `k` is out of `c`, with every rank; nothing else has changed. */
  ghost predicate Out(n: Net, n': Net, k: string, c: string)
    requires k in n.users && c in n.channels
  {
    OnlyAt(n, n', {k}, {c}) && k in n'.users && c in n'.channels &&
    n'.users[k] == n.users[k].(channels := n.users[k].channels - {c}) &&
    n'.channels[c].name == n.channels[c].name && Removed(n.channels[c].body, n'.channels[c].body, k)
  }

  ghost predicate Removed(ch: Chan, ch': Chan, k: string) {
    ch'.users == ch.users - {k} && ch'.bans == ch.bans && ch'.pbans == ch.pbans && RanksBut(ch, ch', k) &&
    Stands(ch', k, false, false, false)
  }

  lemma LeftSo(n: Net, k: string, c: string)
    requires k in n.users && c in n.channels
    ensures Out(n, Leave(n, k, c), k, c) && Leave(n, k, c).channels[c].body.orphaned == n.channels[c].body.orphaned
  {}

  /** PART, and SAPART by an IRC operator: a member is out; the channel it leaves empty is gone;
      anybody else's changes nothing. */
  lemma PartSo(n: Net, k: string, c: string, caller: string)
    requires caller in n.users
    ensures var r, forced := Step(n, CPart(k, c)), Step(n, CForcePart(caller, k, c));
            var member := k in n.users && c in n.channels && k in n.channels[c].body.users;
            r.Some? && forced == (if n.users[caller].o then r else Some(n)) &&
            if !member then r.value == n
            else if n.channels[c].body.users == {k} then
              OnlyAt(n, r.value, {k}, {c}) && c !in r.value.channels && k in r.value.users &&
              r.value.users[k] == n.users[k].(channels := n.users[k].channels - {c})
            else Out(n, r.value, k, c)
  {
    if k in n.users && c in n.channels && k in n.channels[c].body.users {
      LeftSo(n, k, c);
      LeavesNobody(n.channels[c].body.users, k);
      hide Leave;
    }
  }

  /** KICK: who is put out, and by whom. The channel stays, even without members. */
  lemma KickSo(n: Net, k: string, c: string, v: string)
    requires k in n.users && v in n.users && c in n.channels
    ensures var r, ch := Step(n, CKick(k, c, v)), n.channels[c].body;
            r.Some? &&
            if (k in ch.ops || k in ch.halfs) && v in ch.users && !n.users[v].o && (v in ch.ops ==> n.users[k].o)
            then Out(n, r.value, v, c) else r.value == n
  {
    LeftSo(n, v, c);
    hide Leave;
    hide Out;
  }

  /** KICK by or of somebody who is not there, or from a channel that is not. */
  lemma KickNothing(n: Net, k: string, c: string, v: string)
    requires k !in n.users || v !in n.users || c !in n.channels
    ensures Step(n, CKick(k, c, v)) == Some(n)
  {}

  /** QUIT: the user is gone; a channel is gone exactly if the user was its only member; from the
      others the user is out, and everything else is as it was. */
  lemma QuitSo(n: Net, k: string)
    requires Coherent(n) && k in n.users
    ensures var r := Step(n, CQuit(k));
            r == Some(Quit(n, k)) && r.value.users == n.users - {k} &&
            (forall c :: c in r.value.channels <==> c in n.channels && n.channels[c].body.users != {k}) &&
            forall c :: c in r.value.channels ==>
              r.value.channels[c].name == n.channels[c].name && Removed(n.channels[c].body, r.value.channels[c].body, k)
  {
    var n' := Quit(n, k);
    forall c | c in n.channels
      ensures c in n'.channels <==> n.channels[c].body.users != {k}
      ensures c in n'.channels ==> Removed(n.channels[c].body, n'.channels[c].body, k)
    {
      LinkedAt(n, k, c);
      GoneSo(n.channels[c].body, k);
      if k in n.channels[c].body.users { LeavesNobody(n.channels[c].body.users, k); }
    }
    hide Removed;
    hide Coherent;
  }

  lemma GoneSo(ch: Chan, k: string)
    ensures Removed(ch, ch.Without(k), k) && Removed(ch, ch.Deserted(k), k)
  {}

  lemma LinkedAt(n: Net, k: string, c: string)
    requires Coherent(n) && c in n.channels
    ensures n.channels[c].body.Known(n.users.Keys)
    ensures k in n.channels[c].body.users <==> k in n.users && c in n.users[k].channels
  {
    assert Joined(n, k, c) <==> Member(n, k, c);
  }

  /** And whether a rank is left to nobody in one of them. */
  lemma QuitLeft(n: Net, k: string, c: string)
    requires Coherent(n) && k in n.users && c in Quit(n, k).channels
    ensures var ch := n.channels[c].body;
            Quit(n, k).channels[c].body.orphaned <==>
            ch.orphaned || (k !in ch.users && (k in ch.ops || k in ch.halfs || k in ch.voices))
  {
    assert Joined(n, k, c) <==> Member(n, k, c);
  }

  // ---------------------------------------------------------------- NICK

  /** A set in which `b` stands for what was `a`. */
  ghost predicate Moved(s: set<string>, s': set<string>, a: string, b: string) {
    (b in s' <==> a in s) && (a != b ==> a !in s') && forall x :: x != a && x != b ==> (x in s' <==> x in s)
  }

  ghost predicate ChanMoved(ch: Chan, ch': Chan, a: string, b: string) {
    Moved(ch.users, ch'.users, a, b) && ch'.bans == ch.bans && ch'.pbans == ch.pbans && ch'.orphaned == ch.orphaned
  }

  ghost predicate RanksMoved(ch: Chan, ch': Chan, a: string, b: string) {
    Moved(ch.ops, ch'.ops, a, b) && Moved(ch.halfs, ch'.halfs, a, b) && Moved(ch.voices, ch'.voices, a, b)
  }

  /** The tables under a new nick: the entry under its new key with everything but the nick,
      and that key for the old one in every set. */
  lemma NickMoveSo(n: Net, k: string, newnick: string)
    requires Coherent(n) && k in n.users && (Lower(newnick) == k || Lower(newnick) !in n.users)
    ensures var n', b := NickMove(n, k, newnick), Lower(newnick);
            n'.users.Keys == n.users.Keys - {k} + {b} && n'.users[b] == n.users[k].(nick := newnick) &&
            (forall x :: x in n.users && x != k ==> n'.users[x] == n.users[x]) &&
            n'.channels.Keys == n.channels.Keys &&
            forall c :: c in n.channels ==>
              n'.channels[c].name == n.channels[c].name &&
              ChanMoved(n.channels[c].body, n'.channels[c].body, k, b) &&
              RanksMoved(n.channels[c].body, n'.channels[c].body, k, b)
  {
    var n', b := NickMove(n, k, newnick), Lower(newnick);
    KeyOf(n, k);
    forall c | c in n.channels
      ensures var ch := n.channels[c].body;
              var ch' := if b == k then ch else RenamedChan(ch, k, b);
              ChanMoved(ch, ch', k, b) && RanksMoved(ch, ch', k, b)
    {
      LinkedAt(n, b, c);
      if b == k { SameMoved(n.channels[c].body, k); } else { RenamedSo(n.channels[c].body, k, b, n.users.Keys); }
    }
    hide Coherent;
    hide Lower;
    hide ChanMoved;
    hide RanksMoved;
    hide RenamedChan;
    assert n'.users.Keys == n.users.Keys - {k} + {b};
  }

  lemma KeyOf(n: Net, k: string)
    requires Coherent(n) && k in n.users
    ensures Lower(n.users[k].nick) == k
  {}

  lemma SameMoved(ch: Chan, k: string)
    ensures ChanMoved(ch, ch, k, k) && RanksMoved(ch, ch, k, k)
  {}

  lemma RenamedSo(ch: Chan, a: string, b: string, table: set<string>)
    requires ch.Known(table) && a in table && b !in table && b !in ch.users
    ensures ChanMoved(ch, RenamedChan(ch, a, b), a, b) && RanksMoved(ch, RenamedChan(ch, a, b), a, b)
  {}

  /** NICK to a nick that somebody else has changes nothing. */
  lemma NickTaken(n: Net, k: string, newnick: string, s: Services)
    requires k in n.users && Lower(newnick) != k && Lower(newnick) in n.users
    ensures Step(n, CNick(k, newnick, s)) == Some(n)
  {}

  /** The virtual host after `Cycle`: outside channels as it was, else what the services have,
      else the cloak for a nick that is not registered. */
  function VhostAfter(u: UserRec, s: Services): string {
    if u.channels == {} then u.vhost
    else if s.vhost(u.nick) != "" then s.vhost(u.nick)
    else if s.registered(u.nick) then u.vhost
    else u.cloak
  }

  /** NICK otherwise: a change of case changes the nick alone; a new key comes with a new cloak,
      the flag of IRC operators as the services say, and `Cycle`. */
  lemma NickSo(n: Net, k: string, newnick: string, s: Services)
    requires Coherent(n) && k in n.users && (Lower(newnick) == k || Lower(newnick) !in n.users)
    ensures var r, b, u := Step(n, CNick(k, newnick, s)), Lower(newnick), n.users[k];
            r.Some? && r.value.users.Keys == n.users.Keys - {k} + {b} &&
            (forall x :: x in n.users && x != k ==> r.value.users[x] == n.users[x]) &&
            r.value.users[b] == (
              if b == k then u.(nick := newnick)
              else
                var u1 := u.(nick := newnick, cloak := s.cloak(u.host), o := s.ircop(newnick));
                u1.(vhost := VhostAfter(u1, s))) &&
            r.value.channels.Keys == n.channels.Keys &&
            forall c :: c in n.channels ==>
              r.value.channels[c].name == n.channels[c].name &&
              ChanMoved(n.channels[c].body, r.value.channels[c].body, k, b)
  {
    var b, u, n1 := Lower(newnick), n.users[k], NickMove(n, k, newnick);
    NickMoveSo(n, k, newnick);
    hide Coherent;
    hide NickMove;
    hide Lower;
    hide ChanMoved;
    hide RanksMoved;
    hide RanksOnly;
    forall ch, x: Chan, y | ChanMoved(ch, x, k, b) && RanksOnly(x, y, b) ensures ChanMoved(ch, y, k, b) {
      MovedStays(ch, x, y, k, b);
    }
    var n2 := CheckedIn(n1, s, b, n1.users[b].channels);
    CheckedAll(n1, s, b, n1.users[b].channels);
    hide CheckedIn;
    if b != k {
      var n3 := Amend(n2, b, n2.users[b].(cloak := s.cloak(n2.users[b].host), o := s.ircop(newnick)));
      CycleSo(n3, s, b);
    }
    hide Cycle;
  }

  lemma MovedStays(ch: Chan, x: Chan, y: Chan, a: string, b: string)
    requires ChanMoved(ch, x, a, b) && RanksOnly(x, y, b)
    ensures ChanMoved(ch, y, a, b)
  {}

  /** `CheckModes` in many channels, for all of them at once. */
  lemma CheckedAll(n: Net, s: Services, k: string, done: set<string>)
    requires k in n.users
    ensures var n' := CheckedIn(n, s, k, done);
            n'.users == n.users && n'.channels.Keys == n.channels.Keys &&
            forall c :: c in n.channels ==>
              n'.channels[c].name == n.channels[c].name && RanksOnly(n.channels[c].body, n'.channels[c].body, k)
  {
    var n' := CheckedIn(n, s, k, done);
    forall c | c in n.channels
      ensures n'.channels[c].name == n.channels[c].name && RanksOnly(n.channels[c].body, n'.channels[c].body, k)
    {
      CheckedOnce(n, s, k, done, c);
    }
    hide Checked;
  }

  /** `Cycle`: the virtual host, and where that changes, `CheckModes` in every channel. */
  lemma CycleSo(n: Net, s: Services, k: string)
    requires k in n.users
    ensures var r, u := Step(n, CCycle(k, s)), n.users[k];
            r == Some(Cycle(n, s, k)) && r.value.users == n.users[k := u.(vhost := VhostAfter(u, s))] &&
            r.value.channels.Keys == n.channels.Keys &&
            (forall c :: c in n.channels ==>
              r.value.channels[c].name == n.channels[c].name &&
              RanksOnly(n.channels[c].body, r.value.channels[c].body, k)) &&
            (VhostAfter(u, s) == u.vhost ==> r.value == n) &&
            (VhostAfter(u, s) != u.vhost ==>
              r.value.channels == CheckedIn(Amend(n, k, u.(vhost := VhostAfter(u, s))), s, k, u.channels).channels)
  {
    var u := n.users[k];
    CheckedAll(Amend(n, k, u.(vhost := VhostAfter(u, s))), s, k, u.channels);
    hide CheckedIn;
    hide RanksOnly;
    if VhostAfter(u, s) == u.vhost { assert n.users[k := u.(vhost := u.vhost)] == n.users; assert Cycle(n, s, k) == n; }
  }

  lemma CheckedStays(n: Net, s: Services, k: string, done: set<string>, c: string)
    requires k in n.users && c in n.channels && k in n.channels[c].body.users && !s.noop(n.users[k].nick)
    requires var u, rec := n.users[k], n.channels[c];
             AsServicesSay(rec.body, k, s.level(u.nick, rec.name), s.founder(u.nick, rec.name), u.o,
                           s.autovoice(rec.name))
    ensures CheckedIn(n, s, k, done).channels[c] == n.channels[c]
  {
    var u, rec := n.users[k], n.channels[c];
    SaidStays(rec.body, k, s.level(u.nick, rec.name), s.founder(u.nick, rec.name), u.o, s.autovoice(rec.name));
    hide CheckModes;
    hide Access;
  }

  lemma SaidStays(ch: Chan, t: string, level: string, founder: bool, irc: bool, autovoice: bool)
    requires t in ch.users && AsServicesSay(ch, t, level, founder, irc, autovoice)
    ensures CheckModes(Effect(ch, []), t, false, autovoice, Access(level, founder, irc)).chan == ch
  {
    LevelsDiffer();
    hide Upper;
  }

  /** `Cycle` with a new virtual host: a member without a rank has what the services say. */
  lemma CycleRank(n: Net, s: Services, k: string, c: string)
    requires Coherent(n) && k in n.users && c in n.channels && k in n.channels[c].body.users
    requires VhostAfter(n.users[k], s) != n.users[k].vhost && !s.noop(n.users[k].nick)
    requires Stands(n.channels[c].body, k, false, false, false)
    ensures var n', u, name := Cycle(n, s, k), n.users[k], n.channels[c].name;
            c in n'.channels &&
            AsServicesSay(n'.channels[c].body, k, s.level(u.nick, name), s.founder(u.nick, name), u.o,
                          s.autovoice(name))
  {
    LinkedAt(n, k, c);
    hide Coherent;
    CycleSo(n, s, k);
    var u := n.users[k];
    CheckedOnce(Amend(n, k, u.(vhost := VhostAfter(u, s))), s, k, u.channels, c);
    hide CheckedIn;
    hide AsServicesSay;
    hide RanksOnly;
    hide Cycle;
  }

  /** NICK, where it does not make or unmake an IRC operator: so too, under the new nick. */
  lemma NickRank(n: Net, k: string, newnick: string, s: Services, c: string)
    requires Coherent(n) && k in n.users && (Lower(newnick) == k || Lower(newnick) !in n.users)
    requires c in n.channels && k in n.channels[c].body.users && Stands(n.channels[c].body, k, false, false, false)
    requires !s.noop(newnick) && (Lower(newnick) != k ==> s.ircop(newnick) == n.users[k].o)
    ensures var n', u, name := NickCommand(n, s, k, newnick), n.users[k], n.channels[c].name;
            c in n'.channels &&
            AsServicesSay(n'.channels[c].body, Lower(newnick), s.level(newnick, name), s.founder(newnick, name), u.o,
                          s.autovoice(name))
  {
    var b, u, n1 := Lower(newnick), n.users[k], NickMove(n, k, newnick);
    LinkedAt(n, k, c);
    NickMoveSo(n, k, newnick);
    hide Coherent;
    hide NickMove;
    hide Lower;
    var n2 := CheckedIn(n1, s, b, u.channels);
    CheckedOnce(n1, s, b, u.channels, c);
    CheckedAll(n1, s, b, u.channels);
    hide CheckedIn;
    hide AsServicesSay;
    hide RanksOnly;
    if b != k {
      var u3 := n2.users[b].(cloak := s.cloak(n2.users[b].host), o := s.ircop(newnick));
      var n3 := Amend(n2, b, u3);
      CycleSo(n3, s, b);
      var n4 := Amend(n3, b, u3.(vhost := VhostAfter(u3, s)));
      CheckedStays(n4, s, b, u3.channels, c);
      CheckedAll(n4, s, b, u3.channels);
    }
    hide Cycle;
  }

  // ---------------------------------------------------------------- the rest

  /** A user enters under the lower-cased nick, in no channel; a nick that is taken stays. */
  lemma NewSo(n: Net, u: UserRec)
    ensures var r := Step(n, CNew(u));
            r == Some(if Lower(u.nick) in n.users then n
                      else Net(n.users[Lower(u.nick) := u.(channels := {})], n.channels))
  {}

  /** The away text, and one flag of a user by its letter; any other letter changes nothing. */
  lemma FieldSo(n: Net, k: string, away: Option<string>, letter: char, on: bool)
    requires k in n.users
    ensures Step(n, CAway(k, away)) == Some(Net(n.users[k := n.users[k].(away := away)], n.channels))
    ensures var u, r := n.users[k], Step(n, CFlag(k, letter, on));
            r.Some? && r.value.channels == n.channels &&
            r.value.users == n.users[k := match letter
                                          case 'o' => u.(o := on)
                                          case 'r' => u.(r := on)
                                          case 'z' => u.(z := on)
                                          case 'w' => u.(w := on)
                                          case _ => u]
  {}

  /** The ChanServ commands: a member ends with the rank given alone, or without the one taken;
      of somebody outside only a rank it holds is moved; nobody else's. */
  lemma ServiceSo(n: Net, c: string, t: string, r: Rank, on: bool)
    requires Coherent(n) && ExclusiveRanks(n) && c in n.channels && t in n.users
    ensures var res, ch := Step(n, CService(c, t, r, on)), n.channels[c].body;
            var moves := t in ch.users || t in ch.ops || t in ch.halfs || t in ch.voices;
            res.Some? && OnlyAt(n, res.value, {}, {c}) && c in res.value.channels &&
            res.value.channels[c].name == n.channels[c].name && RanksOnly(ch, res.value.channels[c].body, t) &&
            var ch' := res.value.channels[c].body;
            if on && moves then Stands(ch', t, r == Op, r == Half, r == Voice)
            else if on then Stands(ch', t, false, false, false)
            else Stands(ch', t, t in ch.ops && r != Op, t in ch.halfs && r != Half, t in ch.voices && r != Voice)
  {
    assert n.channels[c].body.Exclusive();
    hide Coherent;
    hide ExclusiveRanks;
    ServiceTable(n.channels[c].body, t, r, on);
    hide ServiceRank;
    hide Stands;
    hide RanksOnly;
  }

  lemma ServiceTable(ch: Chan, t: string, r: Rank, on: bool)
    requires ch.Exclusive()
    ensures var ch' := ServiceRank(Effect(ch, []), t, r, on).chan;
            var moves := t in ch.users || t in ch.ops || t in ch.halfs || t in ch.voices;
            RanksOnly(ch, ch', t) &&
            if on && moves then Stands(ch', t, r == Op, r == Half, r == Voice)
            else if on then Stands(ch', t, false, false, false)
            else Stands(ch', t, t in ch.ops && r != Op, t in ch.halfs && r != Half, t in ch.voices && r != Voice)
  {}

  /** `CheckModes` as a step of its own. */
  lemma AutoSo(n: Net, s: Services, k: string, c: string)
    requires k in n.users && c in n.channels
    ensures var u, name := n.users[k], n.channels[c].name;
            Step(n, CAuto(c, k, s.noop(u.nick), s.autovoice(name),
                          Access(s.level(u.nick, name), s.founder(u.nick, name), u.o))) ==
            Some(CheckedIn(n, s, k, {c}))
  {
    hide CheckModes;
    hide Access;
    var n' := CheckedIn(n, s, k, {c});
    assert n'.channels == WithBody(n, c, n'.channels[c].body).channels;
  }
}
