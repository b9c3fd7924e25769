/** What each line of a peer does, from its words to the fields of users and the member and rank
    sets of channels, without the functions of the parser. */
module Lines {
  import opened Text
  import opened Glob
  import opened ChannelState
  import opened NetState
  import opened Effects
  import opened Peer
  import Burst

  /** A line of these words, one space between them, whose first word is `cmd` in any case of
      its letters. */
  predicate Says(ts: seq<string>, cmd: string) { |ts| > 0 && AreTokens(ts, " ") && Upper(ts[0]) == cmd }

  /** The letter after the sign, if there is one. */
  function Letter(mode: string): char { if |mode| >= 2 then mode[1] else ' ' }

  // ---------------------------------------------------------------- the word at the head

  /** The first word decides. */
  lemma Sent(w: World, n: Net, ts: seq<string>)
    requires |ts| > 0 && AreTokens(ts, " ")
    ensures var cmd, r := Upper(ts[0]), Feed(w, n, Join(ts));
            (cmd == "SNICK" ==> r == FeedSnick(n, ts)) && (cmd == "AWAY" ==> r == FeedAway(n, ts)) &&
            (cmd == "SJOIN" ==> r == FeedSjoin(n, ts)) && (cmd == "SBAN" ==> r == FeedBan(n, ts, false)) &&
            (cmd == "SPBAN" ==> r == FeedBan(n, ts, true)) && (cmd == "SPART" ==> r == FeedSpart(n, ts)) &&
            (cmd == "SKICK" ==> r == FeedSkick(n, ts)) && (cmd == "CMODE" ==> r == FeedCmode(w, n, ts)) &&
            (cmd == "UMODE" ==> r == FeedUmode(n, ts)) && (cmd == "SUSER" ==> r == FeedSuser(n, ts)) &&
            (cmd == "WEBIRC" ==> r == FeedWebirc(w, n, ts)) && (cmd == "VHOST" ==> r == FeedVhost(w, n, ts)) &&
            (cmd == "QUIT" || cmd == "SKILL" ==> r == FeedQuit(n, ts)) &&
            (cmd == "NICK" ==> r == Took(if |ts| < 3 then n else ChangeNickName(n, ts[1], ts[2])))
  {
    LineTokens(ts);
    hide FeedSnick;
    hide FeedAway;
    hide FeedSjoin;
    hide FeedBan;
    hide FeedSpart;
    hide FeedSkick;
    hide FeedCmode;
    hide FeedUmode;
    hide FeedSuser;
    hide FeedWebirc;
    hide FeedVhost;
    hide FeedQuit;
    hide FeedOther;
    hide ChangeNickName;
    hide Tokens;
    hide Join;
    hide Upper;
    var cmd := Upper(ts[0]);
    if cmd == "SNICK" {} else if cmd == "AWAY" {} else if cmd == "SJOIN" {} else if cmd == "SBAN" {}
    else if cmd == "SPBAN" {} else if cmd == "SPART" {} else if cmd == "SKICK" {} else if cmd == "CMODE" {}
    else if cmd == "UMODE" {} else if cmd == "SUSER" {} else if cmd == "WEBIRC" {} else if cmd == "VHOST" {}
    else if cmd == "QUIT" {} else if cmd == "SKILL" {} else if cmd == "NICK" {}
  }

  lemma QuitStepIs(n: Net, k: string)
    ensures Step(n, CQuit(k)) == Some(if k in n.users then Quit(n, k) else n)
  {}

  lemma CycleStepIs(n: Net, k: string, s: Services)
    ensures Step(n, CCycle(k, s)) == Some(if k in n.users then Cycle(n, s, k) else n)
  {}

  lemma PartStepIs(n: Net, k: string, c: string)
    ensures Step(n, CPart(k, c)) == Some(Part(n, k, c))
  {}

  // ---------------------------------------------------------------- lines about a user

  /** UMODE with a sign and one of the letters o, w, r, z sets that flag to "the sign is +", and
      nothing else anywhere; any other letter changes nothing. */
  lemma UmodeLine(w: World, n: Net, ts: seq<string>)
    requires Says(ts, "UMODE")
    ensures Feed(w, n, Join(ts)) ==
            if |ts| < 3 || Lower(ts[1]) !in n.users then Took(n)
            else
              var k, on, u := Lower(ts[1]), ts[2] != "" && ts[2][0] == '+', n.users[Lower(ts[1])];
              Took(Net(n.users[k := match Letter(ts[2])
                                    case 'o' => u.(o := on)
                                    case 'w' => u.(w := on)
                                    case 'r' => u.(r := on)
                                    case 'z' => u.(z := on)
                                    case _ => u], n.channels))
  {
    assert Feed(w, n, Join(ts)) == FeedUmode(n, ts) by { Sent(w, n, ts); }
    if |ts| >= 3 && Lower(ts[1]) in n.users {
      FlagIs(n.users[Lower(ts[1])], LetterOf(ts[2]), IsPlus(ts[2]));
      FlagIs(n.users[Lower(ts[1])], Letter(ts[2]), IsPlus(ts[2]));
    }
    hide FlagSet;
    hide Feed;
    hide Says;
    hide Tokens;
    hide Join;
    hide Upper;
  }

  lemma FlagIs(u: UserRec, c: char, on: bool)
    ensures FlagSet(u, c, on) == match c
                                 case 'o' => u.(o := on)
                                 case 'w' => u.(w := on)
                                 case 'r' => u.(r := on)
                                 case 'z' => u.(z := on)
                                 case _ => u
  {}

  /** SUSER sets the ident. */
  lemma SuserLine(w: World, n: Net, ts: seq<string>)
    requires Says(ts, "SUSER")
    ensures Feed(w, n, Join(ts)) ==
            if |ts| < 3 || Lower(ts[1]) !in n.users then Took(n)
            else var k := Lower(ts[1]); Took(Net(n.users[k := n.users[k].(ident := ts[2])], n.channels))
  {
    assert Feed(w, n, Join(ts)) == FeedSuser(n, ts) by { Sent(w, n, ts); }
    hide Feed;
    hide Says;
    hide Tokens;
    hide Join;
    hide Upper;
  }

  /** WEBIRC sets the host, and the cloak to the hash of it. */
  lemma WebircLine(w: World, n: Net, ts: seq<string>)
    requires Says(ts, "WEBIRC")
    ensures Feed(w, n, Join(ts)) ==
            if |ts| < 3 || Lower(ts[1]) !in n.users then Took(n)
            else
              var k := Lower(ts[1]);
              Took(Net(n.users[k := n.users[k].(host := ts[2], cloak := w.services.cloak(ts[2]))], n.channels))
  {
    assert Feed(w, n, Join(ts)) == FeedWebirc(w, n, ts) by { Sent(w, n, ts); }
    hide Feed;
    hide Says;
    hide Tokens;
    hide Join;
    hide Upper;
  }

  /** AWAY sets the words after the nick as away text, without blanks at its ends; without a
      text it takes the one there is back. */
  lemma AwayLine(w: World, n: Net, ts: seq<string>)
    requires Says(ts, "AWAY")
    ensures Feed(w, n, Join(ts)) ==
            if |ts| < 2 || Lower(ts[1]) !in n.users then Took(n)
            else
              var k, away := Lower(ts[1]), if |ts| == 2 then None else Some(Trim(Join(ts[2..])));
              Took(Net(n.users[k := n.users[k].(away := away)], n.channels))
  {
    assert Feed(w, n, Join(ts)) == FeedAway(n, ts) by { Sent(w, n, ts); }
    hide Feed;
    hide Says;
    if |ts| > 2 { Burst.TrimSpread(ts[2..]); }
    hide Trim;
    hide Spread;
    hide Tokens;
    hide Join;
    hide Upper;
  }

  /** NICK moves a user to the key of a new nick that nobody has, and changes nothing else of
      it; a nick that is taken, if only by the user itself, changes nothing. */
  lemma NickLine(w: World, n: Net, ts: seq<string>)
    requires Coherent(n) && Says(ts, "NICK")
    ensures var r := Feed(w, n, Join(ts));
            r.Took? &&
            if |ts| < 3 || Lower(ts[1]) !in n.users || Lower(ts[2]) in n.users then r.net == n
            else
              var k, b := Lower(ts[1]), Lower(ts[2]);
              r.net.users == (n.users - {k})[b := n.users[k].(nick := ts[2])] &&
              r.net.channels.Keys == n.channels.Keys &&
              forall c :: c in n.channels ==>
                r.net.channels[c].name == n.channels[c].name &&
                ChanMoved(n.channels[c].body, r.net.channels[c].body, k, b) &&
                RanksMoved(n.channels[c].body, r.net.channels[c].body, k, b)
  {
    assert Feed(w, n, Join(ts)) == Took(if |ts| < 3 then n else ChangeNickName(n, ts[1], ts[2])) by {
      Sent(w, n, ts);
    }
    hide Feed;
    hide Says;
    if |ts| >= 3 && Lower(ts[1]) in n.users && Lower(ts[2]) !in n.users {
      KeyOf(n, Lower(ts[1]));
      NickMoveSo(n, Lower(ts[1]), ts[2]);
    }
    hide Tokens;
    hide Join;
    hide Upper;
    hide Coherent;
    hide ChanMoved;
    hide RanksMoved;
  }

  /** QUIT and SKILL are a quit. */
  lemma QuitLine(w: World, n: Net, ts: seq<string>)
    requires Says(ts, "QUIT")
    ensures if |ts| < 2 then Feed(w, n, Join(ts)) == Took(n)
            else var step := Step(n, CQuit(Lower(ts[1]))); step.Some? && Feed(w, n, Join(ts)) == Took(step.value)
  {
    assert Feed(w, n, Join(ts)) == FeedQuit(n, ts) by { Sent(w, n, ts); }
    if |ts| >= 2 { QuitStepIs(n, Lower(ts[1])); }
    hide Step;
    hide Feed;
    hide Says;
    hide Tokens;
    hide Join;
    hide Upper;
    hide Quit;
  }

  lemma SkillLine(w: World, n: Net, ts: seq<string>)
    requires Says(ts, "SKILL")
    ensures if |ts| < 2 then Feed(w, n, Join(ts)) == Took(n)
            else var step := Step(n, CQuit(Lower(ts[1]))); step.Some? && Feed(w, n, Join(ts)) == Took(step.value)
  {
    assert Feed(w, n, Join(ts)) == FeedQuit(n, ts) by { Sent(w, n, ts); }
    if |ts| >= 2 { QuitStepIs(n, Lower(ts[1])); }
    hide Step;
    hide Feed;
    hide Says;
    hide Tokens;
    hide Join;
    hide Upper;
    hide Quit;
  }

  /** VHOST is `Cycle`. */
  lemma VhostLine(w: World, n: Net, ts: seq<string>)
    requires Says(ts, "VHOST")
    ensures if |ts| < 2 then Feed(w, n, Join(ts)) == Took(n)
            else
              var step := Step(n, CCycle(Lower(ts[1]), w.services));
              step.Some? && Feed(w, n, Join(ts)) == Took(step.value)
  {
    assert Feed(w, n, Join(ts)) == FeedVhost(w, n, ts) by { Sent(w, n, ts); }
    if |ts| >= 2 { CycleStepIs(n, Lower(ts[1]), w.services); }
    hide Step;
    hide Feed;
    hide Says;
    hide Tokens;
    hide Join;
    hide Upper;
    hide Cycle;
  }

  /** The letter `c` stands in the mode word after its sign, with no `x` before it. */
  ghost predicate SetBy(modes: string, c: char) {
    exists i :: 1 <= i < |modes| && modes[i] == c && forall j :: 1 <= j < i ==> modes[j] != 'x'
  }

  lemma {:induction false} FlagsSet(u: UserRec, s: string)
    ensures var v := WithFlags(u, s);
            v == u.(o := v.o, r := v.r, z := v.z, w := v.w) &&
            (v.o <==> u.o || InFront(s, 'o')) && (v.r <==> u.r || InFront(s, 'r')) &&
            (v.z <==> u.z || InFront(s, 'z')) && (v.w <==> u.w || InFront(s, 'w'))
    decreases |s|
  {
    if s != "" {
      FrontStep(s, 'o');
      FrontStep(s, 'r');
      FrontStep(s, 'z');
      FrontStep(s, 'w');
      if s[0] != 'x' { FlagsSet(FlagSet(u, s[0], true), s[1..]); }
      hide InFront;
    }
  }

  ghost predicate InFront(s: string, c: char) {
    exists i :: 0 <= i < |s| && s[i] == c && forall j :: 0 <= j < i ==> s[j] != 'x'
  }

  lemma FrontStep(s: string, c: char)
    requires s != "" && c != 'x'
    ensures InFront(s, c) <==> s[0] == c || (s[0] != 'x' && InFront(s[1..], c))
  {
    if InFront(s[1..], c) && s[0] != 'x' {
      var i :| 0 <= i < |s[1..]| && s[1..][i] == c && forall j :: 0 <= j < i ==> s[1..][j] != 'x';
      assert s[i + 1] == c && forall j :: 0 <= j < i + 1 ==> s[j] != 'x' by {
        assert forall j :: 1 <= j < i + 1 ==> s[j] == s[1..][j - 1];
      }
    }
    if InFront(s, c) && s[0] != c {
      var i :| 0 <= i < |s| && s[i] == c && forall j :: 0 <= j < i ==> s[j] != 'x';
      assert s[1..][i - 1] == c && forall j :: 0 <= j < i - 1 ==> s[1..][j] == s[j + 1];
    }
  }

  lemma SetIsFront(modes: string, c: char)
    requires modes != ""
    ensures SetBy(modes, c) <==> InFront(modes[1..], c)
  {
    if SetBy(modes, c) {
      var i :| 1 <= i < |modes| && modes[i] == c && forall j :: 1 <= j < i ==> modes[j] != 'x';
      assert modes[1..][i - 1] == c && forall j :: 0 <= j < i - 1 ==> modes[1..][j] == modes[j + 1];
    }
    if InFront(modes[1..], c) {
      var i :| 0 <= i < |modes[1..]| && modes[1..][i] == c && forall j :: 0 <= j < i ==> modes[1..][j] != 'x';
      assert modes[i + 1] == c && forall j :: 1 <= j < i + 1 ==> modes[j] == modes[1..][j - 1];
    }
  }

  /** SNICK of a nick nobody has: nick, ident, host, cloak, virtual host, login time, server and
      flags in this order; the user is remote, in no channel and not away. A login time that is no
      int, and a line that ends before the flags, stop the server. */
  lemma SnickLine(w: World, n: Net, ts: seq<string>)
    requires Says(ts, "SNICK") && |ts| >= 8 && Lower(ts[1]) !in n.users
    ensures Feed(w, n, Join(ts)) ==
            match Stoi(ts[6])
            case None => Crash
            case Some(login) =>
              if |ts| == 8 then Crash else
              var u := UserRec(ts[1], ts[2], ts[3], ts[4], ts[5], ts[7], login, SetBy(ts[8], 'r'), SetBy(ts[8], 'z'),
                               SetBy(ts[8], 'w'), SetBy(ts[8], 'o'), None, false, {});
              Took(Net(n.users[Lower(ts[1]) := u], n.channels))
  {
    assert Feed(w, n, Join(ts)) == FeedSnick(n, ts) by { Sent(w, n, ts); }
    hide Feed;
    hide Says;
    if |ts| > 8 && Stoi(ts[6]).Some? {
      assert IsToken(ts[8], " ");
      var u := UserRec(ts[1], ts[2], ts[3], ts[4], ts[5], ts[7], Stoi(ts[6]).value,
                       false, false, false, false, None, false, {});
      FlagsSet(u, ts[8][1..]);
      SetIsFront(ts[8], 'o');
      SetIsFront(ts[8], 'r');
      SetIsFront(ts[8], 'z');
      SetIsFront(ts[8], 'w');
    }
    hide Stoi;
    hide Tokens;
    hide Join;
    hide Upper;
    hide WithFlags;
    hide SetBy;
    hide InFront;
  }

  /** SNICK of a nick that is taken puts a local user out, and leaves a remote one. */
  lemma SnickTaken(w: World, n: Net, ts: seq<string>)
    requires Says(ts, "SNICK") && (|ts| < 8 || Lower(ts[1]) in n.users)
    ensures if |ts| < 8 || !n.users[Lower(ts[1])].local then Feed(w, n, Join(ts)) == Took(n)
            else var step := Step(n, CQuit(Lower(ts[1]))); step.Some? && Feed(w, n, Join(ts)) == Took(step.value)
  {
    assert Feed(w, n, Join(ts)) == FeedSnick(n, ts) by { Sent(w, n, ts); }
    if |ts| >= 2 { QuitStepIs(n, Lower(ts[1])); }
    hide Step;
    hide Feed;
    hide Says;
    hide Stoi;
    hide Tokens;
    hide Join;
    hide Upper;
    hide WithFlags;
    hide Quit;
  }

  // ---------------------------------------------------------------- lines about a channel

  /** SJOIN: the user is in the channel, which is opened if it is missing, and holds the rank
      named besides those it held. */
  lemma SjoinLine(w: World, n: Net, ts: seq<string>)
    requires Says(ts, "SJOIN") && |ts| >= 4 && Lower(ts[1]) in n.users
    ensures var r, k, c := Feed(w, n, Join(ts)), Lower(ts[1]), Lower(ts[2]);
            var member := c in n.channels && k in n.channels[c].body.users;
            var ch := if c in n.channels then n.channels[c].body else EMPTY;
            var letter := Letter(ts[3]);
            r.Took? &&
            (!member ==> Entered(n, r.net, k, c, ts[2])) &&
            (member ==>
              OnlyAt(n, r.net, {}, {c}) && c in r.net.channels && r.net.channels[c].name == n.channels[c].name &&
              RanksOnly(ch, r.net.channels[c].body, k)) &&
            c in r.net.channels &&
            Stands(r.net.channels[c].body, k, k in ch.ops || letter == 'o', k in ch.halfs || letter == 'h',
                   k in ch.voices || letter == 'v')
  {
    var k, c := Lower(ts[1]), Lower(ts[2]);
    assert Feed(w, n, Join(ts)) == FeedSjoin(n, ts) by { Sent(w, n, ts); }
    hide Feed;
    hide Says;
    JoinedSo(n, k, ts[2], RankLetterOf(ts[3]));
    RankNamed(ts[3]);
    hide RankLetterOf;
    hide Letter;
    hide Tokens;
    hide Join;
    hide Upper;
    hide RemoteJoin;
    hide Entered;
    hide OnlyAt;
    hide RanksOnly;
  }

  lemma RankNamed(mode: string)
    ensures RankLetterOf(mode) == match Letter(mode)
                                  case 'o' => Some(Op)
                                  case 'h' => Some(Half)
                                  case 'v' => Some(Voice)
                                  case _ => None
  {}

  lemma SjoinNothing(w: World, n: Net, ts: seq<string>)
    requires Says(ts, "SJOIN") && (|ts| < 4 || Lower(ts[1]) !in n.users)
    ensures Feed(w, n, Join(ts)) == Took(n)
  {
    assert Feed(w, n, Join(ts)) == FeedSjoin(n, ts) by { Sent(w, n, ts); }
    hide Feed;
    hide Says;
    hide Tokens;
    hide Join;
    hide Upper;
  }

  lemma JoinedSo(n: Net, k: string, name: string, rank: Option<Rank>)
    requires k in n.users
    ensures var n', c := RemoteJoin(n, k, name, rank), Lower(name);
            var member := c in n.channels && k in n.channels[c].body.users;
            var ch := if c in n.channels then n.channels[c].body else EMPTY;
            (!member ==> Entered(n, n', k, c, name)) &&
            (member ==>
              OnlyAt(n, n', {}, {c}) && c in n'.channels && n'.channels[c].name == n.channels[c].name &&
              RanksOnly(ch, n'.channels[c].body, k)) &&
            c in n'.channels &&
            Stands(n'.channels[c].body, k, k in ch.ops || rank == Some(Op), k in ch.halfs || rank == Some(Half),
                   k in ch.voices || rank == Some(Voice))
  {
    var c := Lower(name);
    EnteredSo(n, k, name);
    var member := c in n.channels && k in n.channels[c].body.users;
    var n1 := if member then n else Enter(OpenChannel(n, name), k, c);
    if member { assert OpenChannel(n, name) == n; }
    hide Enter;
    hide OpenChannel;
    if rank.Some? {
      var body := n1.channels[c].body;
      var body' := body.With(rank.value, body.Holders(rank.value) + {k});
      GivenSo(body, rank.value, k);
      if !member { EnteredThen(n, n1, k, c, name, body'); }
      hide Entered;
      assert RemoteJoin(n, k, name, rank) == WithBody(n1, c, body');
    }
  }

  lemma GivenSo(ch: Chan, r: Rank, k: string)
    ensures var ch' := ch.With(r, ch.Holders(r) + {k});
            RanksOnly(ch, ch', k) &&
            Stands(ch', k, k in ch.ops || r == Op, k in ch.halfs || r == Half, k in ch.voices || r == Voice)
    ensures var ch' := ch.With(r, ch.Holders(r) - {k});
            RanksOnly(ch, ch', k) &&
            Stands(ch', k, k in ch.ops && r != Op, k in ch.halfs && r != Half, k in ch.voices && r != Voice)
  {}

  /** SPART is PART; for a known user, an unknown channel stops the server. */
  lemma SpartLine(w: World, n: Net, ts: seq<string>)
    requires Says(ts, "SPART")
    ensures if |ts| < 3 || Lower(ts[1]) !in n.users then Feed(w, n, Join(ts)) == Took(n)
            else
              var step := Step(n, CPart(Lower(ts[1]), Lower(ts[2])));
              step.Some? && Feed(w, n, Join(ts)) == if Lower(ts[2]) in n.channels then Took(step.value) else Crash
  {
    assert Feed(w, n, Join(ts)) == FeedSpart(n, ts) by { Sent(w, n, ts); }
    if |ts| >= 3 { PartStepIs(n, Lower(ts[1]), Lower(ts[2])); }
    hide Step;
    hide Feed;
    hide Says;
    hide Tokens;
    hide Join;
    hide Upper;
    hide Part;
  }

  /** SKICK puts the third one out, whoever it is and whoever says so. */
  lemma SkickLine(w: World, n: Net, ts: seq<string>)
    requires Says(ts, "SKICK")
    ensures var r := Feed(w, n, Join(ts));
            r.Took? &&
            if |ts| >= 5 && Lower(ts[1]) in n.users && Lower(ts[2]) in n.channels && Lower(ts[3]) in n.users
            then Out(n, r.net, Lower(ts[3]), Lower(ts[2])) else r.net == n
  {
    assert Feed(w, n, Join(ts)) == FeedSkick(n, ts) by { Sent(w, n, ts); }
    hide Feed;
    hide Says;
    if |ts| >= 5 && Lower(ts[2]) in n.channels && Lower(ts[3]) in n.users { LeftSo(n, Lower(ts[3]), Lower(ts[2])); }
    hide Tokens;
    hide Join;
    hide Upper;
    hide Leave;
    hide Out;
  }

  /** SBAN and SPBAN add the mask to the one list or the other, unless some ban matches it; a
      search that reads past the end, and a time that is no int where the mask would be added,
      stop the server. */
  lemma BanLine(w: World, n: Net, ts: seq<string>, permanent: bool)
    requires Says(ts, if permanent then "SPBAN" else "SBAN")
    ensures var r := Feed(w, n, Join(ts));
            if |ts| < 5 || Lower(ts[1]) !in n.channels then r == Took(n)
            else
              var c, rec, ch := Lower(ts[1]), n.channels[Lower(ts[1])], n.channels[Lower(ts[1])].body;
              match (IsBan(ch, ts[2]), Stoi(ts[4]))
              case (Undefined, _) => r == Crash
              case (Yes, _) => r == Took(n)
              case (No, None) => r == Crash
              case (No, Some(time)) =>
                var b := Ban(ts[2], ts[3], time);
                r == Took(Net(n.users, n.channels[c := rec.(body := if permanent then ch.(pbans := ch.pbans + [b])
                                                                      else ch.(bans := ch.bans + [b]))]))
  {
    assert Feed(w, n, Join(ts)) == FeedBan(n, ts, permanent) by { Sent(w, n, ts); }
    hide *;
    BanSo(n, ts, permanent);
  }

  lemma BanSo(n: Net, ts: seq<string>, permanent: bool)
    ensures var r := FeedBan(n, ts, permanent);
            if |ts| < 5 || Lower(ts[1]) !in n.channels then r == Took(n)
            else
              var c, rec, ch := Lower(ts[1]), n.channels[Lower(ts[1])], n.channels[Lower(ts[1])].body;
              match (IsBan(ch, ts[2]), Stoi(ts[4]))
              case (Undefined, _) => r == Crash
              case (Yes, _) => r == Took(n)
              case (No, None) => r == Crash
              case (No, Some(time)) =>
                var b := Ban(ts[2], ts[3], time);
                r == Took(Net(n.users, n.channels[c := rec.(body := if permanent then ch.(pbans := ch.pbans + [b])
                                                                      else ch.(bans := ch.bans + [b]))]))
  {
    hide IsBan;
    hide Stoi;
    hide Lower;
  }

  /** CMODE with a rank letter and a known nick: the rank is there or not as the sign says, of
      whomever it may be; nothing else changes. */
  lemma CmodeRankLine(w: World, n: Net, ts: seq<string>)
    requires Says(ts, "CMODE") && |ts| == 5 && Lower(ts[2]) in n.channels && Lower(ts[4]) in n.users
    requires |ts[3]| >= 2 && (ts[3][1] == 'o' || ts[3][1] == 'h' || ts[3][1] == 'v')
    ensures var r, c, t := Feed(w, n, Join(ts)), Lower(ts[2]), Lower(ts[4]);
            var ch, on, letter := n.channels[c].body, ts[3][0] == '+', ts[3][1];
            r.Took? && OnlyAt(n, r.net, {}, {c}) && c in r.net.channels &&
            r.net.channels[c].name == n.channels[c].name && RanksOnly(ch, r.net.channels[c].body, t) &&
            Stands(r.net.channels[c].body, t, if letter == 'o' then on else t in ch.ops,
                   if letter == 'h' then on else t in ch.halfs, if letter == 'v' then on else t in ch.voices)
  {
    var c, t := Lower(ts[2]), Lower(ts[4]);
    assert Feed(w, n, Join(ts)) == FeedCmode(w, n, ts) by { Sent(w, n, ts); }
    hide Feed;
    hide Says;
    var rank := RankLetterOf(ts[3]).value;
    hide Tokens;
    hide Join;
    hide Upper;
    assert FeedCmode(w, n, ts) == Took(RankMove(n, t, c, rank, ts[3][0] == '+'));
    hide FeedCmode;
    RankMoveSo(n, c, t, rank, ts[3][0] == '+');
    hide RankMove;
    hide OnlyAt;
    hide RanksOnly;
  }

  lemma RankMoveSo(n: Net, c: string, t: string, r: Rank, on: bool)
    requires c in n.channels
    ensures var ch, n' := n.channels[c].body, RankMove(n, t, c, r, on);
            OnlyAt(n, n', {}, {c}) && c in n'.channels && n'.channels[c].name == n.channels[c].name &&
            RanksOnly(ch, n'.channels[c].body, t) &&
            Stands(n'.channels[c].body, t, if r == Op then on else t in ch.ops, if r == Half then on else t in ch.halfs,
                   if r == Voice then on else t in ch.voices)
  {
    GivenSo(n.channels[c].body, r, t);
    hide RanksOnly;
  }

  /** CMODE with a ban letter, a sign and a mask: `+b` adds the mask whatever is there, `-b` stops
      the server if a ban is written so; `+B` adds to the other list if the mask is a nick too,
      `-B` does nothing. */
  lemma CmodeBanLine(w: World, n: Net, ts: seq<string>)
    requires Says(ts, "CMODE") && |ts| == 5 && Lower(ts[2]) in n.channels
    requires |ts[3]| >= 2 && (ts[3][1] == 'b' || ts[3][1] == 'B')
    ensures var r, c := Feed(w, n, Join(ts)), Lower(ts[2]);
            var rec, ch, on, b := n.channels[c], n.channels[c].body, ts[3][0] == '+', Ban(ts[4], ts[1], w.now);
            match ts[3][1]
            case 'b' =>
              if on then r == Took(Net(n.users, n.channels[c := rec.(body := ch.(bans := ch.bans + [b]))]))
              else r == if exists x :: x in ch.bans && x.mask == ts[4] then Crash else Took(n)
            case _ =>
              if on && Lower(ts[4]) in n.users
              then r == Took(Net(n.users, n.channels[c := rec.(body := ch.(pbans := ch.pbans + [b]))]))
              else r == Took(n)
  {
    assert Feed(w, n, Join(ts)) == FeedCmode(w, n, ts) by { Sent(w, n, ts); }
    hide Feed;
    hide Says;
    hide Tokens;
    hide Join;
    hide Upper;
    hide RankMove;
  }

  predicate WantsNick(c: char) { c == 'o' || c == 'h' || c == 'v' || c == 'B' }

  /** CMODE of too few words, for an unknown channel, for a letter that wants a nick with none or an unknown one,
      and for any letter not named above changes neither table. */
  lemma CmodeNothing(w: World, n: Net, ts: seq<string>)
    requires Says(ts, "CMODE")
    requires |ts| < 4 || Lower(ts[2]) !in n.channels || (Letter(ts[3]) != 'b' && !WantsNick(Letter(ts[3]))) ||
             (WantsNick(Letter(ts[3])) && (|ts| != 5 || Lower(ts[4]) !in n.users))
    ensures Feed(w, n, Join(ts)) == Took(n)
  {
    assert Feed(w, n, Join(ts)) == FeedCmode(w, n, ts) by { Sent(w, n, ts); }
    hide *;
    CmodeIdle(w, n, ts);
  }

  lemma CmodeIdle(w: World, n: Net, ts: seq<string>)
    requires |ts| < 4 || Lower(ts[2]) !in n.channels || (Letter(ts[3]) != 'b' && !WantsNick(Letter(ts[3]))) ||
             (WantsNick(Letter(ts[3])) && (|ts| != 5 || Lower(ts[4]) !in n.users))
    ensures FeedCmode(w, n, ts) == Took(n)
  {
    hide Lower;
    hide RankMove;
    hide WithBody;
    hide HasExactly;
    if |ts| >= 4 {
      RankNamed(ts[3]);
      hide RankLetterOf;
    }
  }

  /** A ban letter without a mask reads a word that is not there: at once with `+`, and with `-`
      at the first ban looked at. */
  lemma CmodeNoMask(w: World, n: Net, ts: seq<string>)
    requires Says(ts, "CMODE") && |ts| == 4 && Lower(ts[2]) in n.channels && |ts[3]| >= 2 && ts[3][1] == 'b'
    ensures Feed(w, n, Join(ts)) ==
            if ts[3][0] == '+' || n.channels[Lower(ts[2])].body.bans != [] then Crash else Took(n)
  {
    assert Feed(w, n, Join(ts)) == FeedCmode(w, n, ts) by { Sent(w, n, ts); }
    hide Feed;
    hide Says;
    hide Tokens;
    hide Join;
    hide Upper;
    hide RankMove;
  }

  // ---------------------------------------------------------------- lines that change neither table

  /** The words of the commands that may change a table. */
  predicate ForTables(cmd: string) {
    cmd == "SNICK" || cmd == "AWAY" || cmd == "SJOIN" || cmd == "SBAN" || cmd == "SPBAN" || cmd == "SPART" ||
    cmd == "SKICK" || cmd == "CMODE" || cmd == "UMODE" || cmd == "SUSER" || cmd == "WEBIRC" || cmd == "VHOST" ||
    cmd == "QUIT" || cmd == "SKILL" || cmd == "NICK"
  }

  predicate ForOthers(cmd: string) {
    cmd == "PRIVMSG" || cmd == "NOTICE" || cmd == "DB" || cmd == "MEMO" || cmd == "MEMODEL" || cmd == "SQUIT"
  }

  lemma NotForTables(w: World, n: Net, line: string)
    requires line != "" && Tokens(line, " ") != [] && !ForTables(Upper(Tokens(line, " ")[0]))
    ensures var x := Tokens(line, " "); Feed(w, n, line) == FeedOther(w, n, Upper(x[0]), x, |line|)
  {
    hide Tokens;
    hide Upper;
    hide FeedOther;
  }

  lemma OtherWords()
    ensures !ForTables("PRIVMSG") && !ForTables("NOTICE") && !ForTables("DB") && !ForTables("MEMO")
    ensures !ForTables("MEMODEL")
  {}

  /** A text for a channel or for somebody who is there changes nothing; for a nick that nobody
      has it stops the server. */
  lemma TextLine(w: World, n: Net, ts: seq<string>)
    requires Says(ts, "PRIVMSG") || Says(ts, "NOTICE")
    ensures Feed(w, n, Join(ts)) ==
            if |ts| < 4 || ts[2] == "" || ts[2][0] == '#' || Lower(ts[2]) in n.users then Took(n) else Crash
  {
    LineTokens(ts);
    OtherWords();
    hide *;
    NotForTables(w, n, Join(ts));
    TextIs(w, n, Upper(ts[0]), ts, |Join(ts)|);
  }

  lemma TextIs(w: World, n: Net, cmd: string, x: seq<string>, length: nat)
    requires cmd == "PRIVMSG" || cmd == "NOTICE"
    ensures FeedOther(w, n, cmd, x, length) ==
            if |x| < 4 || x[2] == "" || x[2][0] == '#' || Lower(x[2]) in n.users then Took(n) else Crash
  {}

  /** DB, MEMO and MEMODEL leave the two tables alone: a DB line of fewer than 36 characters and
      a MEMO whose time is no int stop the server, a MEMODEL waits for ever at a memo for
      somebody else. */
  lemma StoreLine(w: World, n: Net, ts: seq<string>)
    requires Says(ts, "DB") || Says(ts, "MEMO") || Says(ts, "MEMODEL")
    ensures Upper(ts[0]) == "DB" ==> Feed(w, n, Join(ts)) == if |Join(ts)| < 36 then Crash else Took(n)
    ensures Upper(ts[0]) == "MEMO" ==>
              Feed(w, n, Join(ts)) == if |ts| >= 5 && Stoi(ts[3]) == None then Crash else Took(n)
    ensures Upper(ts[0]) == "MEMODEL" ==>
              Feed(w, n, Join(ts)) == if |ts| >= 2 && !w.onlyFor(ts[1]) then Hang else Took(n)
  {
    LineTokens(ts);
    OtherWords();
    hide *;
    NotForTables(w, n, Join(ts));
    StoreIs(w, n, ts, |Join(ts)|);
  }

  lemma StoreIs(w: World, n: Net, x: seq<string>, length: nat)
    ensures FeedOther(w, n, "DB", x, length) == if length < 36 then Crash else Took(n)
    ensures FeedOther(w, n, "MEMO", x, length) == if |x| >= 5 && Stoi(x[3]) == None then Crash else Took(n)
    ensures FeedOther(w, n, "MEMODEL", x, length) == if |x| >= 2 && !w.onlyFor(x[1]) then Hang else Took(n)
  {
    hide Stoi;
  }

  /** A line of spaces stops the server; the empty line and every other command change nothing. */
  lemma OtherLine(w: World, n: Net, line: string)
    ensures line == "" ==> Feed(w, n, line) == Took(n)
    ensures line != "" && (forall i :: 0 <= i < |line| ==> line[i] == ' ') ==> Feed(w, n, line) == Crash
    ensures line != "" && Tokens(line, " ") != [] && !ForTables(Upper(Tokens(line, " ")[0])) &&
            !ForOthers(Upper(Tokens(line, " ")[0])) ==>
              Feed(w, n, line) == Took(n)
  {
    if line != "" && forall i :: 0 <= i < |line| ==> line[i] == ' ' {
      TokensSkip(line, " ", |line|);
      assert line[|line|..] == "";
      NoTokens(" ");
    }
    hide Tokens;
    hide Upper;
    hide Stoi;
    hide ForTables;
    hide ForOthers;
    hide Feed;
    hide FeedOther;
    if line != "" && Tokens(line, " ") != [] && !ForTables(Upper(Tokens(line, " ")[0])) {
      NotForTables(w, n, line);
      var x := Tokens(line, " ");
      if !ForOthers(Upper(x[0])) { NoOther(w, n, Upper(x[0]), x, |line|); }
    }
    NoCommand(w, n, line);
  }

  lemma NoOther(w: World, n: Net, cmd: string, x: seq<string>, length: nat)
    requires !ForOthers(cmd)
    ensures FeedOther(w, n, cmd, x, length) == Took(n)
  {}

  lemma NoCommand(w: World, n: Net, line: string)
    ensures line == "" ==> Feed(w, n, line) == Took(n)
    ensures line != "" && Tokens(line, " ") == [] ==> Feed(w, n, line) == Crash
  {
    hide Tokens;
  }

  // ---------------------------------------------------------------- what a burst says besides the tables

  lemma FirstWord(word: string, text: string)
    requires IsToken(word, " ")
    ensures Tokens(word + " " + text, " ") == [word] + Tokens(text, " ")
  {
    hide Tokens;
    TokenThenRest(word, " " + text, " ");
    TokensSkip(" " + text, " ", 1);
    assert (" " + text)[1..] == text && word + (" " + text) == word + " " + text;
  }

  /** The greeting as a peer splits it: HUB and SERVER, and VERSION outside a cluster. */
  lemma GreetingRead(g: Burst.Greeting)
    ensures var lines := Burst.GreetingLines(g);
            |lines| == (if g.version.Some? then 3 else 2) &&
            Tokens(lines[0], " ") == ["HUB"] + Tokens(g.hub, " ") &&
            Tokens(lines[1], " ") == ["SERVER"] + Tokens(g.server, " ") &&
            (g.version.Some? ==> Tokens(lines[2], " ") == ["VERSION"] + Tokens(g.version.value, " "))
  {
    hide Tokens;
    FirstWord("HUB", g.hub);
    FirstWord("SERVER", g.server);
    assert "HUB " == "HUB" + " " && "SERVER " == "SERVER" + " " && "VERSION " == "VERSION" + " ";
    if g.version.Some? { FirstWord("VERSION", g.version.value); }
  }

  /** A memo as a peer splits it: sender, receptor, the time, and the words of the text. */
  lemma MemoRead(m: Burst.Memo)
    requires IsToken(m.sender, " ") && IsToken(m.receptor, " ") && FitsInt(m.time)
    ensures var x := Tokens(Burst.MemoLine(m), " ");
            |x| >= 4 && x[0] == "MEMO" && x[1] == m.sender && x[2] == m.receptor && Stoi(x[3]) == Some(m.time) &&
            x[4..] == Tokens(m.text, " ")
  {
    StoiOfToString(m.time);
    var time := ToString(m.time);
    hide Tokens;
    hide ToString;
    hide Stoi;
    FirstWord(time, m.text);
    FirstWord(m.receptor, time + " " + m.text);
    FirstWord(m.sender, m.receptor + " " + (time + " " + m.text));
    FirstWord("MEMO", m.sender + " " + (m.receptor + " " + (time + " " + m.text)));
    MemoText(m.sender, m.receptor, time, m.text);
  }

  lemma MemoText(a: string, b: string, c: string, d: string)
    ensures Join(["MEMO", a, b, c]) + " " + d == "MEMO" + " " + (a + " " + (b + " " + (c + " " + d)))
  {
    JoinCons(b, [c]);
    JoinCons(a, [b, c]);
    JoinCons("MEMO", [a, b, c]);
    assert [b] + [c] == [b, c] && [a] + [b, c] == [a, b, c] && ["MEMO"] + [a, b, c] == ["MEMO", a, b, c];
  }

  /** The greeting opens the burst and the memos, in their order, close it. */
  lemma BurstEnds(g: Burst.Greeting, n: Net, order: Burst.Order, i: nat)
    requires forall k :: k in order.nicks ==> k in n.users
    requires forall j :: 0 <= j < |order.visits| ==> Burst.Visitable(n, order.visits[j])
    requires i < |g.memos|
    ensures var lines, greeting := Burst.BurstLines(g, n, order), Burst.GreetingLines(g);
            greeting <= lines && |lines| >= |greeting| + |g.memos| &&
            lines[|lines| - |g.memos| + i] == Burst.MemoLine(g.memos[i])
  {
    MemoAt(g.memos, i);
  }

  lemma {:induction false} MemoAt(memos: seq<Burst.Memo>, i: nat)
    requires i < |memos|
    ensures |Burst.MemoLines(memos)| == |memos| && Burst.MemoLines(memos)[i] == Burst.MemoLine(memos[i])
  {
    hide Burst.MemoLine;
    if |memos| > 1 { MemoAt(memos[1..], if i > 0 then i - 1 else 0); }
  }
}
