/** The receiving half of the server link: what `Server::Parse` does to the two tables, line
    by line, and which invariants a line can break. */
module Peer {
  import opened Text
  import opened Glob
  import opened ChannelState
  import opened NetState

  /** Crash: an exception, a null pointer, or a read of memory that is not there. Hang: a loop
      that never ends. */
  datatype Fed = Took(net: Net) | Crash | Hang

  /** The clock, the services, and whether all memos kept are for a given receptor. */
  datatype World = World(now: int, services: Services, onlyFor: string -> bool)

  // ---------------------------------------------------------------- users

  /** The mode letters of SNICK after the sign; an `x` ends them. */
  function WithFlags(u: UserRec, s: string): UserRec
    decreases |s|
  {
    if s == "" || s[0] == 'x' then u else WithFlags(FlagSet(u, s[0], true), s[1..])
  }

  function FeedSnick(n: Net, x: seq<string>): Fed
    requires |x| > 0 && AreTokens(x, " ")
  {
    if |x| < 8 then Took(n)
    else
      var k := Lower(x[1]);
      if k in n.users then Took(if n.users[k].local then Quit(n, k) else n)
      else if Stoi(x[6]) == None || |x| == 8 then Crash
      else
        assert IsToken(x[8], " ");
        var u := UserRec(x[1], x[2], x[3], x[4], x[5], x[7], Stoi(x[6]).value,
                        false, false, false, false, None, false, {});
        Took(AddUser(n, WithFlags(u, x[8][1..])))
  }

  /** Each word followed by one space. */
  function Spread(ts: seq<string>): string {
    if ts == [] then "" else ts[0] + " " + Spread(ts[1..])
  }

  function FeedAway(n: Net, x: seq<string>): Fed {
    if |x| < 2 || Lower(x[1]) !in n.users then Took(n)
    else
      var k := Lower(x[1]);
      var away := if |x| == 2 then None else Some(Trim(Spread(x[2..])));
      Took(AwayMove(n, k, away))
  }

  function FeedSuser(n: Net, x: seq<string>): Fed {
    if |x| < 3 || Lower(x[1]) !in n.users then Took(n)
    else Took(Amend(n, Lower(x[1]), n.users[Lower(x[1])].(ident := x[2])))
  }

  function FeedWebirc(w: World, n: Net, x: seq<string>): Fed {
    if |x| < 3 || Lower(x[1]) !in n.users then Took(n)
    else Took(Amend(n, Lower(x[1]), n.users[Lower(x[1])].(cloak := w.services.cloak(x[2]), host := x[2])))
  }

  /** The letter after the sign; past the end of a string stands its terminator. */
  function LetterOf(mode: string): char { if |mode| < 2 then '\0' else mode[1] }

  predicate IsPlus(mode: string) { mode != "" && mode[0] == '+' }

  function FeedUmode(n: Net, x: seq<string>): Fed {
    if |x| < 3 || Lower(x[1]) !in n.users then Took(n)
    else Took(Amend(n, Lower(x[1]), FlagSet(n.users[Lower(x[1])], LetterOf(x[2]), IsPlus(x[2]))))
  }

  function FeedQuit(n: Net, x: seq<string>): Fed {
    if |x| < 2 || Lower(x[1]) !in n.users then Took(n) else Took(Quit(n, Lower(x[1])))
  }

  function FeedVhost(w: World, n: Net, x: seq<string>): Fed {
    if |x| < 2 || Lower(x[1]) !in n.users then Took(n) else Took(Cycle(n, w.services, Lower(x[1])))
  }

  predicate HasUserOf(n: Net, server: string) { exists k :: k in n.users && n.users[k].server == server }

  /** The loop over the users erases one of that server under its own iterator. */
  function FeedSquit(n: Net, x: seq<string>): Fed {
    if |x| >= 2 && HasUserOf(n, x[1]) then Crash else Took(n)
  }

  /** A text for somebody who is not there is handed to a null pointer. */
  function FeedText(n: Net, x: seq<string>): Fed {
    if |x| < 4 || x[2] == "" || x[2][0] == '#' || Lower(x[2]) in n.users then Took(n) else Crash
  }

  // ---------------------------------------------------------------- channels

  function RankLetterOf(mode: string): Option<Rank> {
    if LetterOf(mode) == 'o' then Some(Op) else if LetterOf(mode) == 'h' then Some(Half)
    else if LetterOf(mode) == 'v' then Some(Voice) else None
  }

  function FeedSjoin(n: Net, x: seq<string>): Fed {
    Took(if |x| < 4 then n else RemoteJoin(n, Lower(x[1]), x[2], RankLetterOf(x[3])))
  }

  function FeedBan(n: Net, x: seq<string>, permanent: bool): Fed {
    if |x| < 5 || Lower(x[1]) !in n.channels then Took(n)
    else
      var c := Lower(x[1]);
      var ch := n.channels[c].body;
      match IsBan(ch, x[2])
      case Undefined => Crash
      case Yes => Took(n)
      case No =>
        if Stoi(x[4]) == None then Crash
        else
          var b := Ban(x[2], x[3], Stoi(x[4]).value);
          Took(WithBody(n, c, if permanent then ch.(pbans := ch.pbans + [b]) else ch.(bans := ch.bans + [b])))
  }

  function FeedSpart(n: Net, x: seq<string>): Fed {
    if |x| < 3 || Lower(x[1]) !in n.users then Took(n)
    else if Lower(x[2]) !in n.channels then Crash
    else Took(Part(n, Lower(x[1]), Lower(x[2])))
  }

  function FeedSkick(n: Net, x: seq<string>): Fed {
    if |x| < 5 || Lower(x[1]) !in n.users || Lower(x[2]) !in n.channels || Lower(x[3]) !in n.users then Took(n)
    else Took(Leave(n, Lower(x[3]), Lower(x[2])))
  }

  /** The user a CMODE names: only a line of five words names one. */
  function CmodeTarget(n: Net, x: seq<string>): Option<string> {
    if |x| == 5 && Lower(x[4]) in n.users then Some(Lower(x[4])) else None
  }

  predicate HasExactly(bans: seq<Ban>, mask: string) { exists b :: b in bans && b.mask == mask }

  /** CMODE. Nobody asks whether the target is a member. Adding a ban asks neither whether it
      is there nor how many there are. Removing one erases it under the loop's own iterator.
      `B` is only reached when the mask is also somebody's nick, and `-B` never. */
  function FeedCmode(w: World, n: Net, x: seq<string>): Fed {
    if |x| < 4 then Took(n)
    else
      var letter, c, target := LetterOf(x[3]), Lower(x[2]), CmodeTarget(n, x);
      if (target == None && letter != 'b' && letter != 'r') || c !in n.channels then Took(n)
      else
        var ch := n.channels[c].body;
        match RankLetterOf(x[3])
        case Some(r) => Took(RankMove(n, target.value, c, r, IsPlus(x[3])))
        case None =>
          if letter == 'b' && |x| == 4 then (if IsPlus(x[3]) || ch.bans != [] then Crash else Took(n))
          else if letter == 'b' && IsPlus(x[3])
          then Took(WithBody(n, c, ch.(bans := ch.bans + [Ban(x[4], x[1], w.now)])))
          else if letter == 'b' then (if HasExactly(ch.bans, x[4]) then Crash else Took(n))
          else if letter == 'B' && IsPlus(x[3])
          then Took(WithBody(n, c, ch.(pbans := ch.pbans + [Ban(x[4], x[1], w.now)])))
          else Took(n)
  }

  // ---------------------------------------------------------------- the dispatcher

  /** `Server::Parse` on the state of users and channels. */
  function Feed(w: World, n: Net, line: string): Fed {
    if line == "" then Took(n)
    else
      var x := Tokens(line, " ");
      if x == [] then Crash
      else
        var cmd := Upper(x[0]);
        if cmd == "SNICK" then FeedSnick(n, x)
        else if cmd == "AWAY" then FeedAway(n, x)
        else if cmd == "SJOIN" then FeedSjoin(n, x)
        else if cmd == "SBAN" then FeedBan(n, x, false)
        else if cmd == "SPBAN" then FeedBan(n, x, true)
        else if cmd == "SPART" then FeedSpart(n, x)
        else if cmd == "SKICK" then FeedSkick(n, x)
        else if cmd == "CMODE" then FeedCmode(w, n, x)
        else if cmd == "UMODE" then FeedUmode(n, x)
        else if cmd == "SUSER" then FeedSuser(n, x)
        else if cmd == "WEBIRC" then FeedWebirc(w, n, x)
        else if cmd == "VHOST" then FeedVhost(w, n, x)
        else if cmd == "QUIT" || cmd == "SKILL" then FeedQuit(n, x)
        else if cmd == "NICK" then Took(if |x| < 3 then n else ChangeNickName(n, x[1], x[2]))
        else FeedOther(w, n, cmd, x, |line|)
  }

  /** Commands that change neither table. MEMODEL waits for ever at a memo for somebody else. */
  function FeedOther(w: World, n: Net, cmd: string, x: seq<string>, length: nat): Fed {
    if cmd == "PRIVMSG" || cmd == "NOTICE" then FeedText(n, x)
    else if cmd == "DB" then (if length < 36 then Crash else Took(n))
    else if cmd == "MEMO" then (if |x| >= 5 && Stoi(x[3]) == None then Crash else Took(n))
    else if cmd == "MEMODEL" then (if |x| >= 2 && !w.onlyFor(x[1]) then Hang else Took(n))
    else if cmd == "SQUIT" then FeedSquit(n, x)
    else Took(n)
  }

  lemma Unread(w: World, n: Net, line: string)
    requires line != "" && Tokens(line, " ") != []
    requires Upper(Tokens(line, " ")[0]) in ["HUB", "SERVER", "VERSION"]
    ensures Feed(w, n, line) == Took(n)
  {
    hide Tokens;
    hide Upper;
    hide FeedSnick;
    hide FeedBan;
    hide FeedCmode;
    hide FeedText;
    hide FeedSquit;
    hide Stoi;
  }

  function FeedAll(w: World, n: Net, lines: seq<string>): Fed
    decreases |lines|
  {
    if lines == [] then Took(n)
    else match Feed(w, n, lines[0])
      case Took(n') => FeedAll(w, n', lines[1..])
      case stopped => stopped
  }

  lemma {:induction false} FeedAppend(w: World, n: Net, a: seq<string>, b: seq<string>)
    ensures FeedAll(w, n, a + b) == match FeedAll(w, n, a) case Took(n') => FeedAll(w, n', b) case stopped => stopped
    decreases |a|
  {
    hide Feed;
    if a == [] {
      assert a + b == b;
    } else {
      assert (a + b)[0] == a[0] && (a + b)[1..] == a[1..] + b;
      if Feed(w, n, a[0]).Took? { FeedAppend(w, Feed(w, n, a[0]).net, a[1..], b); }
    }
  }

  // ---------------------------------------------------------------- what a line can break

  /** CMODE gives a rank to somebody who is no member, or who holds another one, or sets a
      mask that is set. */
  function CmodeLapses(n: Net, x: seq<string>): Lapses {
    if |x| < 4 || Lower(x[2]) !in n.channels || !IsPlus(x[3]) then NO_LAPSE
    else
      var ch, target := n.channels[Lower(x[2])].body, CmodeTarget(n, x);
      match RankLetterOf(x[3])
      case Some(r) =>
        if target == None then NO_LAPSE
        else NO_LAPSE.(strays := target.value !in ch.users, clashes := HoldsOther(ch, target.value, r))
      case None =>
        NO_LAPSE.(repeats := |x| > 4 && HasMask(ch, x[4]) &&
                             (LetterOf(x[3]) == 'b' || (LetterOf(x[3]) == 'B' && target != None)))
  }

  /** SJOIN names a rank for somebody who holds another one. */
  function SjoinLapses(n: Net, x: seq<string>): Lapses {
    NO_LAPSE.(clashes := |x| >= 4 && Clashes(n, Lower(x[1]), x[2], RankLetterOf(x[3])))
  }

  /** SKICK names the only member. */
  function SkickLapses(n: Net, x: seq<string>): Lapses {
    NO_LAPSE.(empties := |x| >= 5 && Lower(x[1]) in n.users && Lower(x[2]) in n.channels && Lower(x[3]) in n.users &&
                         n.channels[Lower(x[2])].body.users == {Lower(x[3])})
  }

  /** QUIT and SKILL name somebody who holds a rank in a channel it is not in. */
  function QuitLapses(n: Net, x: seq<string>): Lapses {
    NO_LAPSE.(orphans := |x| >= 2 && Lower(x[1]) in n.users && RankedOutside(n, Lower(x[1])))
  }

  /** SNICK with the nick of such a user, if it is local. */
  function SnickLapses(n: Net, x: seq<string>): Lapses {
    NO_LAPSE.(orphans := |x| >= 8 && Lower(x[1]) in n.users && n.users[Lower(x[1])].local &&
                         RankedOutside(n, Lower(x[1])))
  }

  function LineLapses(n: Net, line: string): Lapses {
    var x := Tokens(line, " ");
    if x == [] then NO_LAPSE
    else if Upper(x[0]) == "CMODE" then CmodeLapses(n, x)
    else if Upper(x[0]) == "SJOIN" then SjoinLapses(n, x)
    else if Upper(x[0]) == "SKICK" then SkickLapses(n, x)
    else if Upper(x[0]) == "SNICK" then SnickLapses(n, x)
    else if Upper(x[0]) == "QUIT" || Upper(x[0]) == "SKILL" then QuitLapses(n, x)
    else NO_LAPSE
  }

  ghost predicate KeptIfTaken(n: Net, fed: Fed, l: Lapses) { fed.Took? ==> KeptBut(n, fed.net, l) }

  lemma {:induction false} FlagsKeepName(u: UserRec, s: string)
    ensures WithFlags(u, s).channels == u.channels
    decreases |s|
  {
    if s != "" && s[0] != 'x' { FlagsKeepName(FlagSet(u, s[0], true), s[1..]); }
  }

  lemma SnickKeeps(n: Net, x: seq<string>)
    requires Coherent(n) && |x| > 0 && AreTokens(x, " ")
    ensures KeptIfTaken(n, FeedSnick(n, x), SnickLapses(n, x))
  {
    hide RankedOutside;
    hide Quit;
    hide Stoi;
    hide WithFlags;
    hide Coherent;
    hide Keeps;
    hide KeptBut;
    KeepsSame(n);
    KeepsIsKept(n, n);
    if |x| >= 8 {
      var k := Lower(x[1]);
      if k in n.users {
        QuitKeeps(n, k);
      } else if |x| > 8 && Stoi(x[6]).Some? {
        assert IsToken(x[8], " ");
        var u := UserRec(x[1], x[2], x[3], x[4], x[5], x[7], Stoi(x[6]).value,
                        false, false, false, false, None, false, {});
        FlagsKeepName(u, x[8][1..]);
        AddUserKeeps(n, WithFlags(u, x[8][1..]));
        KeepsIsKept(n, AddUser(n, WithFlags(u, x[8][1..])));
      }
    }
  }

  lemma AmendedKept(n: Net, k: string, u: UserRec)
    requires Coherent(n) && k in n.users && u.channels == n.users[k].channels && u.nick == n.users[k].nick
    ensures KeptBut(n, Amend(n, k, u), NO_LAPSE)
  {
    hide Coherent;
    hide Keeps;
    AmendKeeps(n, k, u);
    KeepsIsKept(n, Amend(n, k, u));
  }

  lemma FieldLinesKeep(w: World, n: Net, x: seq<string>)
    requires Coherent(n)
    ensures KeptIfTaken(n, FeedAway(n, x), NO_LAPSE) && KeptIfTaken(n, FeedSuser(n, x), NO_LAPSE)
    ensures KeptIfTaken(n, FeedWebirc(w, n, x), NO_LAPSE) && KeptIfTaken(n, FeedUmode(n, x), NO_LAPSE)
    ensures KeptIfTaken(n, FeedVhost(w, n, x), NO_LAPSE)
  {
    hide Keeps;
    hide Cycle;
    hide Coherent;
    hide KeptBut;
    hide Trim;
    hide Spread;
    KeepsSame(n);
    KeepsIsKept(n, n);
    if |x| >= 2 && Lower(x[1]) in n.users {
      var k := Lower(x[1]);
      var u := n.users[k];
      AmendedKept(n, k, u.(away := if |x| == 2 then None else Some(Trim(Spread(x[2..])))));
      CycleKeeps(n, w.services, k);
      KeepsIsKept(n, Cycle(n, w.services, k));
      if |x| >= 3 {
        AmendedKept(n, k, u.(ident := x[2]));
        AmendedKept(n, k, u.(cloak := w.services.cloak(x[2]), host := x[2]));
        AmendedKept(n, k, FlagSet(u, LetterOf(x[2]), IsPlus(x[2])));
      }
    }
  }

  lemma BanLineKeeps(n: Net, x: seq<string>, permanent: bool)
    requires Coherent(n)
    ensures KeptIfTaken(n, FeedBan(n, x, permanent), NO_LAPSE)
  {
    hide Stoi;
    hide IsBan;
    hide Coherent;
    hide KeptBut;
    hide HasMask;
    KeepsSame(n);
    KeepsIsKept(n, n);
    if |x| >= 5 && Lower(x[1]) in n.channels && Stoi(x[4]).Some? {
      var c := Lower(x[1]);
      var ch, b := n.channels[c].body, Ban(x[2], x[3], Stoi(x[4]).value);
      AddedBanKept(n, c, b, permanent);
      if ch.users != {} && IsBan(ch, x[2]) == No { NotFoundNotSet(ch, x[2]); }
      hide WithBody;
    }
  }

  /** A ban added to a channel: it repeats a mask exactly when the mask is there. */
  lemma AddedBanKept(n: Net, c: string, b: Ban, permanent: bool)
    requires Coherent(n) && c in n.channels
    ensures var ch := n.channels[c].body;
            var n' := WithBody(n, c, if permanent then ch.(pbans := ch.pbans + [b]) else ch.(bans := ch.bans + [b]));
            KeptBut(n, n', NO_LAPSE.(repeats := HasMask(ch, b.mask))) &&
            (ch.users == {} || !HasMask(ch, b.mask) ==> KeptBut(n, n', NO_LAPSE))
  {
    var ch := n.channels[c].body;
    var body := if permanent then ch.(pbans := ch.pbans + [b]) else ch.(bans := ch.bans + [b]);
    KnownOf(n, c);
    BodyKeeps(n, c, body);
    hide Coherent;
    AddedBanElse(n, c, body);
    hide RanksWithin;
    hide ExclusiveRanks;
    hide NoneOrphaned;
    hide NoEmptyChannel;
    hide MasksDistinct;
    hide WithBody;
    if DistinctMasks(n) {
      AppendedMask(ch.bans, ch.pbans, b);
      MasksOfBody(n, c, body);
    }
    hide DistinctMasks;
  }

  lemma MasksOfBody(n: Net, c: string, body: Chan)
    requires c in n.channels && DistinctMasks(n)
    ensures DistinctMasks(WithBody(n, c, body)) <==> MasksDistinct(body.bans, body.pbans)
  {
    hide MasksDistinct;
    assert WithBody(n, c, body).channels[c].body == body;
  }

  lemma AddedBanElse(n: Net, c: string, body: Chan)
    requires c in n.channels
    requires n.channels[c].body == body.(bans := n.channels[c].body.bans, pbans := n.channels[c].body.pbans)
    ensures var n' := WithBody(n, c, body);
            (RanksWithin(n) ==> RanksWithin(n')) && (ExclusiveRanks(n) ==> ExclusiveRanks(n')) &&
            (NoneOrphaned(n) ==> NoneOrphaned(n')) && (NoEmptyChannel(n) ==> NoEmptyChannel(n')) &&
            (n.channels[c].body.users == {} ==> !NoEmptyChannel(n))
  {}

  lemma KnownOf(n: Net, c: string)
    requires Coherent(n) && c in n.channels
    ensures n.channels[c].body.Known(n.users.Keys)
  {}

  lemma LeavingKeeps(n: Net, x: seq<string>)
    requires Coherent(n)
    ensures KeptIfTaken(n, FeedSpart(n, x), NO_LAPSE) && KeptIfTaken(n, FeedQuit(n, x), QuitLapses(n, x))
    ensures KeptIfTaken(n, FeedSkick(n, x), SkickLapses(n, x))
  {
    hide Coherent;
    hide Keeps;
    hide Milder;
    hide KeptBut;
    hide NoEmptyChannel;
    hide RankedOutside;
    KeepsSame(n);
    KeepsIsKept(n, n);
    if |x| >= 3 {
      PartKeeps(n, Lower(x[1]), Lower(x[2]));
      KeepsIsKept(n, Part(n, Lower(x[1]), Lower(x[2])));
    }
    if |x| >= 2 && Lower(x[1]) in n.users {
      QuitKeeps(n, Lower(x[1]));
    }
    if |x| >= 5 && Lower(x[1]) in n.users && Lower(x[2]) in n.channels && Lower(x[3]) in n.users {
      LeaveKeeps(n, Lower(x[3]), Lower(x[2]));
      MilderIsKept(n, Leave(n, Lower(x[3]), Lower(x[2])), n.channels[Lower(x[2])].body.users == {Lower(x[3])});
    }
  }

  lemma JoinAndNickKeep(n: Net, x: seq<string>)
    requires Coherent(n)
    ensures KeptIfTaken(n, FeedSjoin(n, x), SjoinLapses(n, x))
    ensures |x| >= 3 ==> KeptBut(n, ChangeNickName(n, x[1], x[2]), NO_LAPSE)
  {
    hide Coherent;
    hide Keeps;
    hide RemoteJoin;
    hide RankLetterOf;
    hide Clashes;
    KeepsSame(n);
    KeepsIsKept(n, n);
    if |x| >= 4 { RemoteJoinExact(n, Lower(x[1]), x[2], RankLetterOf(x[3])); }
    if |x| >= 3 && Lower(x[1]) in n.users && Lower(x[2]) !in n.users {
      RekeyKeeps(n, Lower(x[1]), x[2]);
      KeepsIsKept(n, Rekey(n, Lower(x[1]), x[2]));
    }
  }

  lemma RankMoveKept(n: Net, k: string, c: string, r: Rank, on: bool)
    requires Coherent(n) && k in n.users && c in n.channels
    ensures var ch := n.channels[c].body;
            KeptBut(n, RankMove(n, k, c, r, on),
                    NO_LAPSE.(strays := on && k !in ch.users, clashes := on && HoldsOther(ch, k, r)))
  {
    hide Coherent;
    hide HoldsOther;
    hide RankMove;
    RankMoveExact(n, k, c, r, on);
  }

  lemma CmodeKeeps(w: World, n: Net, x: seq<string>)
    requires Coherent(n)
    ensures KeptIfTaken(n, FeedCmode(w, n, x), CmodeLapses(n, x))
  {
    hide Coherent;
    hide KeptBut;
    hide HasMask;
    hide HoldsOther;
    hide RankMove;
    KeepsSame(n);
    KeepsIsKept(n, n);
    if |x| >= 4 && Lower(x[2]) in n.channels {
      var c, target := Lower(x[2]), CmodeTarget(n, x);
      if target.Some? && RankLetterOf(x[3]).Some? {
        RankMoveKept(n, target.value, c, RankLetterOf(x[3]).value, IsPlus(x[3]));
      }
      if |x| > 4 {
        AddedBanKept(n, c, Ban(x[4], x[1], w.now), false);
        AddedBanKept(n, c, Ban(x[4], x[1], w.now), true);
      }
    }
  }

  /** Any line a peer sends, well-formed or not, leaves the state coherent if it is taken at
      all; each further invariant is lost exactly in the case that `LineLapses` names. */
  lemma FeedKeeps(w: World, n: Net, line: string)
    requires Coherent(n)
    ensures KeptIfTaken(n, Feed(w, n, line), LineLapses(n, line))
  {
    hide Coherent;
    hide KeptBut;
    hide FeedSnick;
    hide FeedAway;
    hide FeedSjoin;
    hide FeedBan;
    hide FeedSpart;
    hide FeedSkick;
    hide FeedCmode;
    hide FeedUmode;
    hide FeedSuser;
    hide FeedWebirc;
    hide FeedVhost;
    hide FeedQuit;
    hide FeedOther;
    hide ChangeNickName;
    hide CmodeLapses;
    hide SjoinLapses;
    hide SkickLapses;
    hide SnickLapses;
    hide QuitLapses;
    hide Tokens;
    hide Stoi;
    var x := Tokens(line, " ");
    KeepsSame(n);
    KeepsIsKept(n, n);
    NoTokens(" ");
    if line != "" && x != [] {
      SnickKeeps(n, x);
      FieldLinesKeep(w, n, x);
      BanLineKeeps(n, x, true);
      BanLineKeeps(n, x, false);
      LeavingKeeps(n, x);
      JoinAndNickKeep(n, x);
      CmodeKeeps(w, n, x);
      OthersChangeNothing(w, n, Upper(x[0]), x, |line|);
    }
  }

  lemma OthersChangeNothing(w: World, n: Net, cmd: string, x: seq<string>, length: nat)
    requires Coherent(n)
    ensures KeptIfTaken(n, FeedOther(w, n, cmd, x, length), NO_LAPSE)
  {
    hide Coherent;
    hide Keeps;
    hide KeptBut;
    hide Stoi;
    hide HasUserOf;
    KeepsSame(n);
    KeepsIsKept(n, n);
  }

  // ---------------------------------------------------------------- CMODE of a rank

  function RankChar(r: Rank): char { match r case Op => 'o' case Half => 'h' case Voice => 'v' }

  function ModeWord(on: bool, r: Rank): string { [if on then '+' else '-', RankChar(r)] }

  function CmodeLine(giver: string, name: string, mode: string, nick: string): string {
    Join(["CMODE", giver, name, mode, nick])
  }

  predicate Word(s: string) { IsToken(s, " ") }

  lemma CmodeTokens(giver: string, name: string, mode: string, nick: string)
    requires Word(giver) && Word(name) && Word(mode) && Word(nick)
    ensures CmodeLine(giver, name, mode, nick) != "" && Upper("CMODE") == "CMODE"
    ensures Tokens(CmodeLine(giver, name, mode, nick), " ") == ["CMODE", giver, name, mode, nick]
  {
    var ts := ["CMODE", giver, name, mode, nick];
    TokensOfJoin(ts);
    JoinIsSingleSpaced(ts);
  }

  lemma RankLineFed(w: World, n: Net, giver: string, name: string, on: bool, r: Rank, nick: string)
    requires Word(giver) && Word(name) && Word(nick) && Lower(nick) in n.users && Lower(name) in n.channels
    ensures Feed(w, n, CmodeLine(giver, name, ModeWord(on, r), nick)) ==
            Took(RankMove(n, Lower(nick), Lower(name), r, on))
  {
    hide Tokens;
    hide RankMove;
    var mode := ModeWord(on, r);
    CmodeTokens(giver, name, mode, nick);
    var x := ["CMODE", giver, name, mode, nick];
    assert LetterOf(mode) == RankChar(r) && IsPlus(mode) == on && RankLetterOf(mode) == Some(r);
    assert FeedCmode(w, n, x) == Took(RankMove(n, Lower(nick), Lower(name), r, on));
  }

  /** A CMODE that gives a rank keeps ranks within the members if and only if it names a
      member; one that takes a rank always does. */
  lemma RankLineKeepsGraphIff(w: World, n: Net, giver: string, name: string, on: bool, r: Rank, nick: string)
    requires Graph(n) && Word(giver) && Word(name) && Word(nick) && Lower(nick) in n.users && Lower(name) in n.channels
    ensures var fed := Feed(w, n, CmodeLine(giver, name, ModeWord(on, r), nick));
            fed.Took? && Linked(fed.net) && Keyed(fed.net) &&
            (Graph(fed.net) <==> !on || Lower(nick) in n.channels[Lower(name)].body.users)
  {
    RankLineFed(w, n, giver, name, on, r, nick);
    hide RankMove;
    hide HoldsOther;
    RankMoveExact(n, Lower(nick), Lower(name), r, on);
  }

  /** The lines a server sends for rank changes, each nick in some case of its letters. */
  function ChangeLines(giver: string, name: string, changes: seq<Change>, nick: string -> string): seq<string> {
    seq(|changes|, i requires 0 <= i < |changes| =>
      CmodeLine(giver, name, ModeWord(changes[i].on, changes[i].rank), nick(changes[i].who)))
  }

  /** The announced changes of a channel, parsed by a peer, are the changes replayed there: a
      peer with the same channel ends with the ranks of the sender. */
  lemma {:induction false} ChangesFed(w: World, n: Net, giver: string, name: string, changes: seq<Change>,
                                      nick: string -> string)
    requires Word(giver) && Word(name) && Lower(name) in n.channels
    requires forall c :: c in changes ==> c.who in n.users && Word(nick(c.who)) && Lower(nick(c.who)) == c.who
    ensures FeedAll(w, n, ChangeLines(giver, name, changes, nick)) ==
            Took(WithBody(n, Lower(name), Replay(n.channels[Lower(name)].body, changes)))
  {
    hide Feed;
    hide CmodeLine;
    hide Lower;
    var c := Lower(name);
    var body := n.channels[c].body;
    if changes == [] {
      WithBodySame(n, c);
      assert ChangeLines(giver, name, changes, nick) == [];
    } else {
      var before, last := changes[..|changes| - 1], changes[|changes| - 1];
      ChangesFed(w, n, giver, name, before, nick);
      var line := CmodeLine(giver, name, ModeWord(last.on, last.rank), nick(last.who));
      assert ChangeLines(giver, name, changes, nick) == ChangeLines(giver, name, before, nick) + [line];
      FeedAppend(w, n, ChangeLines(giver, name, before, nick), [line]);
      var n1 := WithBody(n, c, Replay(body, before));
      assert last in changes;
      RankLineFed(w, n1, giver, name, last.on, last.rank, nick(last.who));
      FeedOne(w, n1, line);
      WithBodyTwice(n, c, Replay(body, before), Replay(body, changes));
    }
  }

  lemma FeedOne(w: World, n: Net, line: string)
    ensures FeedAll(w, n, [line]) == Feed(w, n, line)
  {
    assert [line][1..] == [];
    assert forall n' :: FeedAll(w, n', []) == Took(n');
  }

  // ---------------------------------------------------------------- the other lapses

  lemma LineTokens(ts: seq<string>)
    requires AreTokens(ts, " ") && |ts| > 0
    ensures Join(ts) != "" && Tokens(Join(ts), " ") == ts
  {
    TokensOfJoin(ts);
    JoinIsSingleSpaced(ts);
  }

  /** SJOIN with a rank keeps ranks exclusive if and only if the user holds no other one. */
  lemma SjoinLineKeepsExclusiveIff(w: World, n: Net, nick: string, name: string, r: Rank)
    requires Coherent(n) && ExclusiveRanks(n) && Word(nick) && Word(name)
    requires Lower(nick) in n.users && Lower(name) in n.channels
    ensures var fed := Feed(w, n, Join(["SJOIN", nick, name, ModeWord(true, r)]));
            fed.Took? && (ExclusiveRanks(fed.net) <==> !HoldsOther(n.channels[Lower(name)].body, Lower(nick), r))
  {
    var x := ["SJOIN", nick, name, ModeWord(true, r)];
    LineTokens(x);
    assert Upper("SJOIN") == "SJOIN" && RankLetterOf(ModeWord(true, r)) == Some(r);
    hide Tokens;
    hide Join;
    hide RemoteJoin;
    hide HoldsOther;
    RemoteJoinExact(n, Lower(nick), name, Some(r));
  }

  /** SKICK of somebody leaves no empty channel if and only if it is not the only member. */
  lemma SkickLineLeavesEmptyIff(w: World, n: Net, kicker: string, name: string, victim: string, reason: string)
    requires Coherent(n) && NoEmptyChannel(n) && Word(kicker) && Word(name) && Word(victim) && Word(reason)
    requires Lower(kicker) in n.users && Lower(name) in n.channels && Lower(victim) in n.users
    ensures var fed := Feed(w, n, Join(["SKICK", kicker, name, victim, reason]));
            fed.Took? && (NoEmptyChannel(fed.net) <==> n.channels[Lower(name)].body.users != {Lower(victim)})
  {
    var x := ["SKICK", kicker, name, victim, reason];
    LineTokens(x);
    assert Upper("SKICK") == "SKICK";
    hide Tokens;
    hide Join;
    hide Leave;
    LeaveKeeps(n, Lower(victim), Lower(name));
  }

  /** A CMODE that sets a mask keeps masks distinct if and only if it is not set yet. */
  lemma BanLineKeepsMasksIff(w: World, n: Net, giver: string, name: string, mask: string)
    requires Coherent(n) && NoEmptyChannel(n) && DistinctMasks(n) && Word(giver) && Word(name) && Word(mask)
    requires Lower(name) in n.channels
    ensures var fed := Feed(w, n, CmodeLine(giver, name, "+b", mask));
            fed.Took? && (DistinctMasks(fed.net) <==> !HasMask(n.channels[Lower(name)].body, mask))
  {
    MaskLineFed(w, n, giver, name, mask);
    hide Feed;
    hide HasMask;
    hide Coherent;
    hide WithBody;
    AddedBanKept(n, Lower(name), Ban(mask, giver, w.now), false);
  }

  lemma MaskLineFed(w: World, n: Net, giver: string, name: string, mask: string)
    requires Word(giver) && Word(name) && Word(mask) && Lower(name) in n.channels
    ensures var c, ch := Lower(name), n.channels[Lower(name)].body;
            Feed(w, n, CmodeLine(giver, name, "+b", mask)) ==
            Took(WithBody(n, c, ch.(bans := ch.bans + [Ban(mask, giver, w.now)])))
  {
    hide Tokens;
    hide CmodeLine;
    hide WithBody;
    hide RankMove;
    CmodeTokens(giver, name, "+b", mask);
    assert LetterOf("+b") == 'b' && IsPlus("+b") && RankLetterOf("+b") == None;
    var x := ["CMODE", giver, name, "+b", mask];
    assert Feed(w, n, CmodeLine(giver, name, "+b", mask)) == FeedCmode(w, n, x);
  }

  /** A CMODE that removes a mask never does: it stops the server exactly when a ban is written
      so, being erased under the iterator of the loop that looks for it. */
  lemma UnbanLineStopsIff(w: World, n: Net, giver: string, name: string, mask: string)
    requires Word(giver) && Word(name) && Word(mask) && Lower(name) in n.channels
    ensures Feed(w, n, CmodeLine(giver, name, "-b", mask)) ==
            if HasExactly(n.channels[Lower(name)].body.bans, mask) then Crash else Took(n)
  {
    hide Tokens;
    hide CmodeLine;
    hide RankMove;
    CmodeTokens(giver, name, "-b", mask);
    assert LetterOf("-b") == 'b' && !IsPlus("-b") && RankLetterOf("-b") == None;
    var x := ["CMODE", giver, name, "-b", mask];
    assert Feed(w, n, CmodeLine(giver, name, "-b", mask)) == FeedCmode(w, n, x);
  }

  /** A permanent mask is set by CMODE only if it is also somebody's nick. */
  lemma PermanentLineFed(w: World, n: Net, giver: string, name: string, mask: string)
    requires Word(giver) && Word(name) && Word(mask) && Lower(name) in n.channels
    ensures var c, ch := Lower(name), n.channels[Lower(name)].body;
            Feed(w, n, CmodeLine(giver, name, "+B", mask)) ==
            Took(if Lower(mask) in n.users
                 then WithBody(n, c, ch.(pbans := ch.pbans + [Ban(mask, giver, w.now)])) else n)
  {
    hide Tokens;
    hide CmodeLine;
    hide WithBody;
    hide RankMove;
    CmodeTokens(giver, name, "+B", mask);
    assert LetterOf("+B") == 'B' && IsPlus("+B") && RankLetterOf("+B") == None;
    var x := ["CMODE", giver, name, "+B", mask];
    assert Feed(w, n, CmodeLine(giver, name, "+B", mask)) == FeedCmode(w, n, x);
  }

  /** And none is ever removed by it. */
  lemma PermanentStays(w: World, n: Net, giver: string, name: string, mask: string)
    requires Word(giver) && Word(name) && Word(mask)
    ensures Feed(w, n, CmodeLine(giver, name, "-B", mask)) == Took(n)
  {
    hide Tokens;
    hide CmodeLine;
    hide RankMove;
    CmodeTokens(giver, name, "-B", mask);
    assert LetterOf("-B") == 'B' && !IsPlus("-B") && RankLetterOf("-B") == None;
    var x := ["CMODE", giver, name, "-B", mask];
    assert Feed(w, n, CmodeLine(giver, name, "-B", mask)) == FeedCmode(w, n, x);
  }

  lemma FeedTwo(w: World, n: Net, a: string, b: string)
    ensures FeedAll(w, n, [a, b]) == match Feed(w, n, a) case Took(n') => Feed(w, n', b) case stopped => stopped
  {
    hide Feed;
    assert [a, b][1..] == [b];
    if Feed(w, n, a).Took? { FeedOne(w, Feed(w, n, a).net, b); }
  }

  lemma QuitFed(w: World, n: Net, nick: string)
    requires Word(nick) && Lower(nick) in n.users
    ensures Feed(w, n, "QUIT " + nick) == Took(Quit(n, Lower(nick))) && Lower(nick) !in Quit(n, Lower(nick)).users
  {
    var x := ["QUIT", nick];
    LineTokens(x);
    assert Upper("QUIT") == "QUIT" && Join(x) == "QUIT " + nick;
    hide Tokens;
    hide Join;
    assert Feed(w, n, "QUIT " + nick) == FeedQuit(n, x);
  }

  /** SQUIT stops the server exactly when somebody is on the server it names. */
  lemma SquitLineStopsIff(w: World, n: Net, server: string)
    requires Word(server)
    ensures Feed(w, n, Join(["SQUIT", server])) == if HasUserOf(n, server) then Crash else Took(n)
  {
    var x := ["SQUIT", server];
    LineTokens(x);
    assert Upper("SQUIT") == "SQUIT";
    hide Tokens;
    hide Join;
    assert Feed(w, n, Join(x)) == FeedSquit(n, x);
  }

  /** QUIT leaves a rank to nobody if and only if the user holds one in a channel it is not in. */
  lemma QuitLineOrphansIff(w: World, n: Net, nick: string)
    requires Coherent(n) && NoneOrphaned(n) && Word(nick) && Lower(nick) in n.users
    ensures var fed := Feed(w, n, "QUIT " + nick);
            fed.Took? && Lower(nick) !in fed.net.users && (NoneOrphaned(fed.net) <==> !RankedOutside(n, Lower(nick)))
  {
    QuitFed(w, n, nick);
    hide Feed;
    hide Quit;
    hide RankedOutside;
    QuitKeeps(n, Lower(nick));
  }

  /** A CMODE that gives a rank and the QUIT of its holder: nobody's rank is left if and only if
      the CMODE named a member, who holds none elsewhere outside its channels. */
  lemma RankThenQuitIff(w: World, n: Net, giver: string, name: string, r: Rank, nick: string)
    requires Coherent(n) && NoneOrphaned(n) && Word(giver) && Word(name) && Word(nick)
    requires Lower(nick) in n.users && Lower(name) in n.channels
    ensures var fed := FeedAll(w, n, [CmodeLine(giver, name, ModeWord(true, r), nick), "QUIT " + nick]);
            fed.Took? && Lower(nick) !in fed.net.users &&
            (NoneOrphaned(fed.net) <==>
              Lower(nick) in n.channels[Lower(name)].body.users && !RankedOutside(n, Lower(nick)))
  {
    hide *;
    var line, k, c := CmodeLine(giver, name, ModeWord(true, r), nick), Lower(nick), Lower(name);
    RankLineFed(w, n, giver, name, true, r, nick);
    RankMoveExact(n, k, c, r, true);
    GivenOutside(n, k, c, r);
    QuitLineOrphansIff(w, RankMove(n, k, c, r, true), nick);
    FeedTwo(w, n, line, "QUIT " + nick);
  }

  lemma GivenOutside(n: Net, k: string, c: string, r: Rank)
    requires c in n.channels
    ensures var n' := RankMove(n, k, c, r, true);
            n'.users == n.users && (RankedOutside(n', k) <==> RankedOutside(n, k) || k !in n.channels[c].body.users)
  {
    var n' := RankMove(n, k, c, r, true);
    assert n'.channels[c].body.users == n.channels[c].body.users && !Rankless(n'.channels[c].body, k);
    if RankedOutside(n, k) {
      var d :| d in n.channels && k !in n.channels[d].body.users && !Rankless(n.channels[d].body, k);
      assert d in n'.channels && k !in n'.channels[d].body.users && !Rankless(n'.channels[d].body, k);
    }
  }

  /** Each lapse from one state with nothing wrong, where alice is the operator and only member
      of #c and everybody is banned: bob outside is made an operator, */
  lemma StrayHappens(w: World)
    ensures var n, fed := AliceAndBob(), Feed(w, AliceAndBob(), CmodeLine("x", "#c", "+o", "bob"));
            Graph(n) && fed.Took? && !Graph(fed.net)
  {
    hide *;
    AliceAndBobAreFine();
    Concrete();
    RankLineKeepsGraphIff(w, AliceAndBob(), "x", "#c", true, Op, "bob");
  }

  /** alice gets a second rank, */
  lemma ClashHappens(w: World)
    ensures var n, fed := AliceAndBob(), Feed(w, AliceAndBob(), Join(["SJOIN", "alice", "#c", "+v"]));
            ExclusiveRanks(n) && fed.Took? && !ExclusiveRanks(fed.net)
  {
    hide *;
    AliceAndBobAreFine();
    Concrete();
    SjoinLineKeepsExclusiveIff(w, AliceAndBob(), "alice", "#c", Voice);
  }

  /** #c is left empty, */
  lemma EmptyHappens(w: World)
    ensures var n, fed := AliceAndBob(), Feed(w, AliceAndBob(), Join(["SKICK", "bob", "#c", "alice", "bye"]));
            NoEmptyChannel(n) && fed.Took? && !NoEmptyChannel(fed.net)
  {
    hide *;
    AliceAndBobAreFine();
    Concrete();
    SkickLineLeavesEmptyIff(w, AliceAndBob(), "bob", "#c", "alice", "bye");
  }

  /** the mask that is set is set again, */
  lemma RepeatHappens(w: World)
    ensures var n, fed := AliceAndBob(), Feed(w, AliceAndBob(), CmodeLine("x", "#c", "+b", "*"));
            DistinctMasks(n) && fed.Took? && !DistinctMasks(fed.net)
  {
    hide *;
    AliceAndBobAreFine();
    Concrete();
    BanLineKeepsMasksIff(w, AliceAndBob(), "x", "#c", "*");
  }

  /** and bob, made an operator of #c while outside, leaves the rank to nobody when he quits. */
  lemma OrphanHappens(w: World)
    ensures var n, fed := AliceAndBob(), FeedAll(w, AliceAndBob(), [CmodeLine("x", "#c", "+o", "bob"), "QUIT bob"]);
            NoneOrphaned(n) && fed.Took? && "bob" !in fed.net.users && !NoneOrphaned(fed.net)
  {
    hide *;
    AliceAndBobAreFine();
    Concrete();
    RankThenQuitIff(w, AliceAndBob(), "x", "#c", Op, "bob");
  }

  lemma Concrete()
    ensures var n := AliceAndBob();
            "alice" in n.users && "bob" in n.users && "#c" in n.channels && n.channels["#c"].body.users == {"alice"} &&
            HoldsOther(n.channels["#c"].body, "alice", Voice) && HasMask(n.channels["#c"].body, "*")
    ensures Word("x") && Word("#c") && Word("alice") && Word("bob") && Word("bye") && Word("*")
    ensures ModeWord(true, Op) == "+o" && ModeWord(true, Voice) == "+v"
    ensures Coherent(AliceAndBob()) && "QUIT " + "bob" == "QUIT bob"
  {
    AliceAndBobAreFine();
    hide Lower;
    var bans := AliceAndBob().channels["#c"].body.bans;
    assert bans[0] in bans && bans[0].mask == "*";
  }
}
