/** `Server::sendBurst` and `Server::Parse` on the objects themselves, and one server
    handing its whole state to another through text. */
module Wire {
  import opened Text
  import Glob
  import opened ChannelState
  import opened NetState
  import opened Peer
  import opened Burst
  import opened Network
  import Commands

  datatype Outcome = Done | Crashed | Hung

  /** The outcome and the new state agree with `Feed`. */
  ghost predicate Agrees(fed: Fed, before: Net, after: Net, outcome: Outcome) {
    match fed
    case Took(n) => outcome == Done && after == n
    case Crash => outcome == Crashed && after == before
    case Hang => outcome == Hung && after == before
  }

  // ---------------------------------------------------------------- Parse

  /** The flag loop of SNICK over the eighth word. */
  method ReadFlags(user: User, modes: string)
    requires modes != ""
    modifies user`r, user`z, user`w, user`o
    ensures user.Rec() == WithFlags(old(user.Rec()), modes[1..])
  {
    var i := 1;
    while i < |modes|
      invariant 1 <= i <= |modes|
      invariant WithFlags(user.Rec(), modes[i..]) == WithFlags(old(user.Rec()), modes[1..])
    {
      assert modes[i..][0] == modes[i] && modes[i..][1..] == modes[i + 1..];
      if modes[i] == 'x' { break; }
      else if modes[i] == 'o' { user.o := true; }
      else if modes[i] == 'w' { user.w := true; }
      else if modes[i] == 'z' { user.z := true; }
      else if modes[i] == 'r' { user.r := true; }
      i := i + 1;
    }
  }

  method ParseSnick(net: Network, x: seq<string>) returns (outcome: Outcome)
    requires net.Valid() && |x| > 0 && AreTokens(x, " ")
    modifies net.repr
    ensures net.Valid() && fresh(net.repr - old(net.repr))
    ensures Agrees(FeedSnick(old(net.state), x), old(net.state), net.state, outcome)
  {
    hide User.Is;
    hide Channel.Is;
    hide Coherent;
    hide Quit;
    hide Network.Entered;
    hide AloneSomewhere;
    hide WithFlags;
    outcome := Done;
    if |x| < 8 { return; }
    var k := Lower(x[1]);
    if k in net.users {
      net.NickOf(k);
      var target := net.users[k];
      if target.local { var touched := net.MakeQuit(target); }
      return;
    }
    var login := Stoi(x[6]);
    if login == None || |x| == 8 { return Crashed; }
    assert IsToken(x[8], " ");
    var user := new User(UserRec(x[1], x[2], x[3], x[4], x[5], x[7], login.value,
                                 false, false, false, false, None, false, {}));
    ReadFlags(user, x[8]);
    var added := net.AddUser(user);
  }

  /** The loop that glues the words of an away text, each followed by a space. */
  method Glue(x: seq<string>, from: nat) returns (text: string)
    requires from <= |x|
    ensures text == Spread(x[from..])
  {
    text := "";
    var i := from;
    while i < |x|
      invariant from <= i <= |x|
      invariant text + Spread(x[i..]) == Spread(x[from..])
    {
      assert x[i..][1..] == x[i + 1..];
      text := text + (x[i] + " ");
      i := i + 1;
    }
    assert text + "" == text;
  }

  method ParseAway(net: Network, x: seq<string>) returns (outcome: Outcome)
    requires net.Valid()
    modifies net.repr
    ensures net.Valid() && net.repr == old(net.repr)
    ensures Agrees(FeedAway(old(net.state), x), old(net.state), net.state, outcome)
  {
    hide User.Is;
    hide Channel.Is;
    hide Coherent;
    outcome := Done;
    if |x| < 2 || Lower(x[1]) !in net.users { return; }
    net.NickOf(Lower(x[1]));
    var user := net.users[Lower(x[1])];
    if |x| == 2 {
      net.SetAway(user, "", false);
    } else {
      var away := Glue(x, 2);
      net.SetAway(user, Trim(away), true);
    }
  }

  method ParseSjoin(net: Network, x: seq<string>) returns (outcome: Outcome)
    requires net.Valid()
    modifies net.repr
    ensures net.Valid() && fresh(net.repr - old(net.repr))
    ensures Agrees(FeedSjoin(old(net.state), x), old(net.state), net.state, outcome)
  {
    hide User.Is;
    hide Channel.Is;
    hide Coherent;
    hide Enter;
    outcome := Done;
    if |x| < 4 { return; }
    var k, c := Lower(x[1]), Lower(x[2]);
    if k !in net.users { return; }
    net.NickOf(k);
    var user := net.users[k];
    var chan := EnterOnce(net, user, x[2]);
    match RankLetterOf(x[3])
    case None =>
    case Some(r) => net.SetRank(chan, user, r, true);
  }

  /** The membership part of SJOIN. */
  method EnterOnce(net: Network, user: User, name: string) returns (chan: Channel)
    requires net.Valid() && net.Registered(user)
    modifies net.repr
    ensures net.Valid() && net.Registered(user) && fresh(net.repr - old(net.repr)) && user.nick == old(user.nick)
    ensures net.Listed(chan) && Lower(chan.name) == Lower(name) && user in chan.users && chan in net.repr
    ensures net in net.repr
    ensures var n, c, k := OpenChannel(old(net.state), name), Lower(name), Lower(user.nick);
            net.state == if k in n.channels[c].body.users then n else Enter(n, k, c)
  {
    hide User.Is;
    hide Channel.Is;
    hide Coherent;
    hide Enter;
    net.NickOf(Lower(user.nick));
    if Lower(name) in net.channels {
      chan := net.channels[Lower(name)];
      net.NameOf(Lower(name));
      chan.Answers(net.state.channels[Lower(name)], net.users, Lower(user.nick));
      if user in chan.users { return; }
    }
    chan := net.Join(user, name);
  }

  method ParseBan(net: Network, x: seq<string>, permanent: bool) returns (outcome: Outcome)
    requires net.Valid()
    modifies net.repr
    ensures net.Valid() && net.repr == old(net.repr)
    ensures Agrees(FeedBan(old(net.state), x, permanent), old(net.state), net.state, outcome)
  {
    hide User.Is;
    hide Channel.Is;
    hide Coherent;
    hide ChannelState.IsBan;
    outcome := Done;
    if |x| < 5 || Lower(x[1]) !in net.channels { return; }
    var c := Lower(x[1]);
    net.NameOf(c);
    var chan := net.channels[c];
    var banned := chan.IsBan(x[2], net.state.channels[c], net.users);
    if banned == Glob.Undefined { return Crashed; }
    if banned == Glob.Yes { return; }
    var time := Stoi(x[4]);
    if time == None { return Crashed; }
    net.BansOf(c);
    if permanent {
      net.SetBans(chan, chan.bans, chan.pbans + [Ban(x[2], x[3], time.value)]);
    } else {
      net.SetBans(chan, chan.bans + [Ban(x[2], x[3], time.value)], chan.pbans);
    }
  }

  method ParseSpart(net: Network, x: seq<string>) returns (outcome: Outcome)
    requires net.Valid()
    modifies net.repr
    ensures net.Valid() && net.repr == old(net.repr)
    ensures Agrees(FeedSpart(old(net.state), x), old(net.state), net.state, outcome)
  {
    hide User.Is;
    hide Channel.Is;
    hide Coherent;
    outcome := Done;
    if |x| < 3 || Lower(x[1]) !in net.users { return; }
    var k, c := Lower(x[1]), Lower(x[2]);
    if c !in net.channels { return Crashed; }
    net.NickOf(k);
    net.NameOf(c);
    net.channels[c].Answers(net.state.channels[c], net.users, k);
    if net.users[k] in net.channels[c].users {
      var gone := net.Part(net.users[k], net.channels[c]);
    }
  }

  method ParseSkick(net: Network, x: seq<string>) returns (outcome: Outcome)
    requires net.Valid()
    modifies net.repr
    ensures net.Valid() && net.repr == old(net.repr)
    ensures Agrees(FeedSkick(old(net.state), x), old(net.state), net.state, outcome)
  {
    hide User.Is;
    hide Channel.Is;
    hide Coherent;
    outcome := Done;
    if |x| < 5 || Lower(x[1]) !in net.users || Lower(x[2]) !in net.channels || Lower(x[3]) !in net.users { return; }
    net.NickOf(Lower(x[3]));
    net.NameOf(Lower(x[2]));
    net.Unlink(net.users[Lower(x[3])], net.channels[Lower(x[2])]);
  }

  method ParseQuit(net: Network, x: seq<string>) returns (outcome: Outcome)
    requires net.Valid()
    modifies net.repr
    ensures net.Valid() && net.repr == old(net.repr)
    ensures Agrees(FeedQuit(old(net.state), x), old(net.state), net.state, outcome)
  {
    hide User.Is;
    hide Channel.Is;
    hide Coherent;
    hide Quit;
    outcome := Done;
    if |x| < 2 || Lower(x[1]) !in net.users { return; }
    net.NickOf(Lower(x[1]));
    var touched := net.MakeQuit(net.users[Lower(x[1])]);
  }

  method ParseFields(net: Network, cmd: string, x: seq<string>, w: World) returns (outcome: Outcome)
    requires net.Valid() && (cmd == "SUSER" || cmd == "WEBIRC" || cmd == "UMODE")
    modifies net.repr
    ensures net.Valid() && net.repr == old(net.repr)
    ensures Agrees(if cmd == "SUSER" then FeedSuser(old(net.state), x)
                   else if cmd == "WEBIRC" then FeedWebirc(w, old(net.state), x)
                   else FeedUmode(old(net.state), x), old(net.state), net.state, outcome)
  {
    hide User.Is;
    hide Channel.Is;
    hide Coherent;
    hide FlagSet;
    outcome := Done;
    if |x| < 3 || Lower(x[1]) !in net.users { return; }
    net.NickOf(Lower(x[1]));
    var user := net.users[Lower(x[1])];
    if cmd == "SUSER" { net.SetIdentity(user, x[2], user.host, user.cloak); }
    else if cmd == "WEBIRC" { net.SetIdentity(user, user.ident, x[2], w.services.cloak(x[2])); }
    else { net.SetMode(user, LetterOf(x[2]), IsPlus(x[2])); }
  }

  /** CMODE; `-b` of a mask that is there erases it under the iterator of its own loop. */
  method ParseCmode(net: Network, x: seq<string>, w: World) returns (outcome: Outcome)
    requires net.Valid()
    modifies net.repr
    ensures net.Valid() && net.repr == old(net.repr)
    ensures Agrees(FeedCmode(w, old(net.state), x), old(net.state), net.state, outcome)
  {
    hide User.Is;
    hide Channel.Is;
    hide Coherent;
    hide RankMove;
    outcome := Done;
    if |x| < 4 { return; }
    var letter, c := LetterOf(x[3]), Lower(x[2]);
    var named := |x| == 5 && Lower(x[4]) in net.users;
    if (!named && letter != 'b' && letter != 'r') || c !in net.channels { return; }
    net.NameOf(c);
    var chan := net.channels[c];
    var r := RankLetterOf(x[3]);
    if r.Some? {
      net.NickOf(Lower(x[4]));
      net.SetRank(chan, net.users[Lower(x[4])], r.value, IsPlus(x[3]));
    } else if letter == 'b' || letter == 'B' {
      outcome := ParseCmodeBan(net, chan, x, w);
    }
  }

  /** The letters b and B of a CMODE. */
  method ParseCmodeBan(net: Network, chan: Channel, x: seq<string>, w: World) returns (outcome: Outcome)
    requires net.Valid() && net.Listed(chan) && chan in net.repr && net in net.repr
    requires |x| >= 4 && (LetterOf(x[3]) == 'b' || (LetterOf(x[3]) == 'B' && |x| == 5))
    modifies net`state, chan`bans, chan`pbans
    ensures net.Valid()
    ensures Lower(chan.name) in old(net.state).channels
    ensures var n, c := old(net.state), Lower(chan.name);
            var ch := n.channels[c].body;
            var plus, minus := IsPlus(x[3]), !IsPlus(x[3]);
            var fed := if LetterOf(x[3]) == 'b' && |x| == 4 then (if plus || ch.bans != [] then Crash else Took(n))
                       else if LetterOf(x[3]) == 'b' && plus
                       then Took(WithBody(n, c, ch.(bans := ch.bans + [Ban(x[4], x[1], w.now)])))
                       else if LetterOf(x[3]) == 'b' then (if HasExactly(ch.bans, x[4]) then Crash else Took(n))
                       else if plus then Took(WithBody(n, c, ch.(pbans := ch.pbans + [Ban(x[4], x[1], w.now)])))
                       else Took(n);
            Agrees(fed, n, net.state, outcome)
  {
    hide User.Is;
    hide Channel.Is;
    hide Coherent;
    outcome := Done;
    net.NameOf(Lower(chan.name));
    net.BansOf(Lower(chan.name));
    if LetterOf(x[3]) == 'b' {
      if IsPlus(x[3]) {
        if |x| == 4 { return Crashed; }
        net.SetBans(chan, chan.bans + [Ban(x[4], x[1], w.now)], chan.pbans);
      } else if |x| == 4 {
        if chan.bans != [] { return Crashed; }
      } else {
        var found := FindExactly(chan.bans, x[4]);
        if found { return Crashed; }
      }
    } else if IsPlus(x[3]) {
      net.SetBans(chan, chan.bans, chan.pbans + [Ban(x[4], x[1], w.now)]);
    }
  }

  method FindExactly(bans: seq<Ban>, mask: string) returns (found: bool)
    ensures found == HasExactly(bans, mask)
  {
    found := false;
    var i := 0;
    while i < |bans|
      invariant 0 <= i <= |bans| && forall j :: 0 <= j < i ==> bans[j].mask != mask
    {
      if bans[i].mask == mask { assert bans[i] in bans; return true; }
      i := i + 1;
    }
  }

  /** The commands that change neither table. */
  method ParseOther(net: Network, cmd: string, x: seq<string>, length: nat, w: World) returns (outcome: Outcome)
    requires net.Valid()
    ensures Agrees(FeedOther(w, net.state, cmd, x, length), net.state, net.state, outcome)
  {
    hide User.Is;
    hide Channel.Is;
    hide Coherent;
    hide HasUserOf;
    outcome := Done;
    if cmd == "PRIVMSG" || cmd == "NOTICE" {
      if |x| < 4 || x[2] == "" || x[2][0] == '#' || Lower(x[2]) in net.users { return; }
      outcome := Crashed;
    } else if cmd == "DB" {
      if length < 36 { outcome := Crashed; }
    } else if cmd == "MEMO" {
      if |x| >= 5 && Stoi(x[3]) == None { outcome := Crashed; }
    } else if cmd == "MEMODEL" {
      if |x| >= 2 && !w.onlyFor(x[1]) { outcome := Hung; }
    } else if cmd == "SQUIT" {
      if |x| < 2 { return; }
      var found := FindUserOf(net, x[1]);
      if found { outcome := Crashed; }
    }
  }

  /** The loop of SQUIT up to the first user it erases. */
  method FindUserOf(net: Network, server: string) returns (found: bool)
    requires net.Valid()
    ensures found == HasUserOf(net.state, server)
  {
    hide User.Is;
    hide Channel.Is;
    hide Coherent;
    found := false;
    var left := net.users.Keys;
    while left != {}
      invariant left <= net.users.Keys
      invariant forall k :: k in net.users && k !in left ==> net.state.users[k].server != server
    {
      var k :| k in left;
      net.NickOf(k);
      if net.users[k].server == server { return true; }
      left := left - {k};
    }
  }

  method ParseVhost(net: Network, x: seq<string>, w: World) returns (outcome: Outcome)
    requires net.Valid()
    modifies net.repr
    ensures net.Valid() && net.repr == old(net.repr)
    ensures Agrees(FeedVhost(w, old(net.state), x), old(net.state), net.state, outcome)
  {
    hide User.Is;
    hide Channel.Is;
    hide Coherent;
    hide Cycle;
    outcome := Done;
    if |x| < 2 || Lower(x[1]) !in net.users { return; }
    net.NickOf(Lower(x[1]));
    var user := net.users[Lower(x[1])];
    Commands.Fields(net, user);
    Commands.Cycle(net, user, w.services);
  }

  /** `Server::Parse`: split, dispatch on the upper-cased command. */
  method Parse(net: Network, line: string, w: World) returns (outcome: Outcome)
    requires net.Valid()
    modifies net.repr
    ensures net.Valid() && fresh(net.repr - old(net.repr))
    ensures Agrees(Feed(w, old(net.state), line), old(net.state), net.state, outcome)
  {
    hide Network.Valid;
    hide FeedSnick;
    hide FeedAway;
    hide FeedSjoin;
    hide FeedBan;
    hide FeedSpart;
    hide FeedSkick;
    hide FeedCmode;
    hide FeedUmode;
    hide FeedSuser;
    hide FeedWebirc;
    hide FeedVhost;
    hide FeedQuit;
    hide FeedOther;
    hide ChangeNickName;
    if line == "" { return Done; }
    var x := Split(line, " ");
    if x == [] { return Crashed; }
    var cmd := Upper(x[0]);
    if cmd == "SNICK" { outcome := ParseSnick(net, x); }
    else if cmd == "AWAY" { outcome := ParseAway(net, x); }
    else if cmd == "SJOIN" { outcome := ParseSjoin(net, x); }
    else if cmd == "SBAN" { outcome := ParseBan(net, x, false); }
    else if cmd == "SPBAN" { outcome := ParseBan(net, x, true); }
    else if cmd == "SPART" { outcome := ParseSpart(net, x); }
    else if cmd == "SKICK" { outcome := ParseSkick(net, x); }
    else if cmd == "CMODE" { outcome := ParseCmode(net, x, w); }
    else if cmd == "UMODE" || cmd == "SUSER" || cmd == "WEBIRC" { outcome := ParseFields(net, cmd, x, w); }
    else if cmd == "VHOST" { outcome := ParseVhost(net, x, w); }
    else if cmd == "QUIT" || cmd == "SKILL" { outcome := ParseQuit(net, x); }
    else if cmd == "NICK" {
      if |x| >= 3 { outcome := ParseNick(net, x); } else { outcome := Done; }
    }
    else { outcome := ParseOther(net, cmd, x, |line|, w); }
  }

  method ParseNick(net: Network, x: seq<string>) returns (outcome: Outcome)
    requires net.Valid() && |x| >= 3
    modifies net.repr
    ensures net.Valid() && net.repr == old(net.repr)
    ensures Agrees(Took(ChangeNickName(old(net.state), x[1], x[2])), old(net.state), net.state, outcome)
  {
    hide User.Is;
    hide Channel.Is;
    hide Coherent;
    var done := net.ChangeNickName(x[1], x[2]);
    outcome := Done;
  }

  // ---------------------------------------------------------------- sendBurst

  lemma LinesIgnoreChannels(u: UserRec)
    ensures UserLines(u.(channels := {})) == UserLines(u)
  {}

  lemma {:induction false} UsersLinesAppend(n: Net, ks: seq<string>, k: string)
    requires k in n.users && forall x :: x in ks ==> x in n.users
    ensures UsersLines(n, ks + [k]) == UsersLines(n, ks) + UserLines(n.users[k])
  {
    if ks == [] {
      assert [k][1..] == [];
    } else {
      assert (ks + [k])[1..] == ks[1..] + [k];
      UsersLinesAppend(n, ks[1..], k);
    }
  }

  lemma {:induction false} SjoinLinesAppend(n: Net, c: string, ks: seq<string>, k: string)
    requires c in n.channels && k in n.users && forall x :: x in ks ==> x in n.users
    ensures SjoinLines(n, c, ks + [k]) == SjoinLines(n, c, ks) + [SjoinLine(n, c, k)]
  {
    if ks == [] {
      assert [k][1..] == [];
    } else {
      assert (ks + [k])[1..] == ks[1..] + [k];
      SjoinLinesAppend(n, c, ks[1..], k);
    }
  }

  lemma {:induction false} ChannelsLinesAppend(n: Net, vs: seq<Visit>, v: Visit)
    requires forall i :: 0 <= i < |vs| ==> Visitable(n, vs[i])
    requires Visitable(n, v)
    ensures ChannelsLines(n, vs + [v]) == ChannelsLines(n, vs) + ChannelLines(n, v.c, v.members)
  {
    hide ChannelLines;
    if |vs| == 0 {
      assert vs + [v] == [v] && [v][1..] == [];
    } else {
      assert (vs + [v])[1..] == vs[1..] + [v];
      ChannelsLinesAppend(n, vs[1..], v);
    }
  }

  /** One more key visited. */
  lemma EnumeratesMore(s: seq<string>, seen: set<string>, k: string)
    requires Enumerates(s, seen) && k !in seen
    ensures Enumerates(s + [k], seen + {k})
  {}

  method SendUsers(net: Network) returns (out: seq<string>, ghost nicks: seq<string>)
    requires net.Valid()
    ensures Enumerates(nicks, net.state.users.Keys)
    ensures out == UsersLines(net.state, nicks)
  {
    hide User.Is;
    hide Channel.Is;
    hide Coherent;
    hide UserLines;
    out, nicks := [], [];
    var left := net.users.Keys;
    while left != {}
      invariant left <= net.users.Keys && Enumerates(nicks, net.users.Keys - left)
      invariant out == UsersLines(net.state, nicks)
    {
      var k :| k in left;
      net.NickOf(k);
      LinesIgnoreChannels(net.state.users[k]);
      UsersLinesAppend(net.state, nicks, k);
      EnumeratesMore(nicks, net.users.Keys - left, k);
      out := out + UserLines(net.users[k].Rec());
      nicks := nicks + [k];
      assert net.users.Keys - left + {k} == net.users.Keys - (left - {k});
      left := left - {k};
    }
  }

  /** The rank word of SJOIN, from the pointer sets. */
  function RankWord(chan: Channel, user: User): string
    reads chan
  {
    if chan.Holds(user, Op) then "+o" else if chan.Holds(user, Half) then "+h"
    else if chan.Holds(user, Voice) then "+v" else "+x"
  }

  function JoinLine(chan: Channel, user: User): string
    reads chan, user
  {
    Join(["SJOIN", user.nick, chan.name, RankWord(chan, user)])
  }

  method SendBans(cmd: string, name: string, bans: seq<Ban>) returns (out: seq<string>)
    ensures out == BanLines(cmd, name, bans)
  {
    out := [];
    var i := 0;
    while i < |bans|
      invariant 0 <= i <= |bans|
      invariant out + BanLines(cmd, name, bans[i..]) == BanLines(cmd, name, bans)
    {
      assert bans[i..][1..] == bans[i + 1..];
      out := out + [BanLine(cmd, name, bans[i])];
      i := i + 1;
    }
    assert out + [] == out;
  }

  lemma MemberLine(net: Network, c: string, k: string)
    requires net.Valid() && c in net.channels && k in net.users
    ensures c in net.state.channels && k in net.state.users
    ensures JoinLine(net.channels[c], net.users[k]) == SjoinLine(net.state, c, k)
  {
    hide Join;
    net.NickOf(k);
    net.channels[c].Answers(net.state.channels[c], net.users, k);
    var chan, user, body := net.channels[c], net.users[k], net.state.channels[c].body;
    assert forall r :: chan.Holds(user, r) <==> k in body.Holders(r);
    assert chan.Holds(user, Op) <==> k in body.ops;
    assert chan.Holds(user, Half) <==> k in body.halfs;
    assert chan.Holds(user, Voice) <==> k in body.voices;
  }

  /** Every member stands in the nick table, and the line sent for it is the state's. */
  lemma MembersInTable(net: Network, c: string)
    requires net.Valid() && c in net.channels
    ensures c in net.state.channels && net.state.channels[c].body.users <= net.users.Keys
    ensures Injective(net.users) && net.users.Keys == net.state.users.Keys
    ensures forall u :: u in net.channels[c].users ==>
              var k := Lower(u.nick);
              k in net.state.channels[c].body.users && net.users[k] == u &&
              JoinLine(net.channels[c], u) == SjoinLine(net.state, c, k)
    ensures forall k :: k in net.state.channels[c].body.users ==> net.users[k] in net.channels[c].users
  {
    hide JoinLine;
    hide SjoinLine;
    forall u | u in net.channels[c].users
      ensures var k := Lower(u.nick);
              k in net.users && k in net.state.channels[c].body.users && net.users[k] == u &&
              JoinLine(net.channels[c], u) == SjoinLine(net.state, c, k)
    {
      assert u in net.users.Values;
      var k :| k in net.users && net.users[k] == u;
      net.NickOf(k);
      MemberLine(net, c, k);
    }
  }

  /** The members not in `left` are the keys seen. */
  ghost predicate SeenSoFar(table: map<string, User>, all: set<string>, left: set<User>, seen: set<string>)
    requires all <= table.Keys
  {
    seen <= all && forall k :: k in all ==> (k in seen <==> table[k] !in left)
  }

  lemma SeenMore(table: map<string, User>, all: set<string>, left: set<User>, seen: set<string>, k: string)
    requires all <= table.Keys && SeenSoFar(table, all, left, seen)
    requires k in all && table[k] in left && Injective(table)
    ensures k !in seen && SeenSoFar(table, all, left - {table[k]}, seen + {k})
  {}

  lemma SeenAll(table: map<string, User>, all: set<string>, seen: set<string>)
    requires all <= table.Keys && SeenSoFar(table, all, {}, seen)
    ensures seen == all
  {}

  method SendMembers(net: Network, c: string) returns (out: seq<string>, ghost members: seq<string>)
    requires net.Valid() && c in net.channels
    ensures c in net.state.channels && Enumerates(members, net.state.channels[c].body.users)
    ensures forall k :: k in members ==> k in net.state.users
    ensures out == SjoinLines(net.state, c, members)
  {
    hide *;
    var chan := net.channels[c];
    MembersInTable(net, c);
    ghost var n, all := net.state, net.state.channels[c].body.users;
    out, members := [], [];
    NoJoins(n, c);
    var left := chan.users;
    ghost var seen: set<string> := {};
    NoneSeen(net.users, all, left);
    while left != {}
      invariant left <= chan.users && SeenSoFar(net.users, all, left, seen) && Enumerates(members, seen)
      invariant forall k :: k in members ==> k in n.users
      invariant out == SjoinLines(n, c, members)
    {
      var user :| user in left;
      ghost var k := Lower(user.nick);
      SjoinLinesAppend(n, c, members, k);
      SeenMore(net.users, all, left, seen, k);
      EnumeratesMore(members, seen, k);
      out := out + [JoinLine(chan, user)];
      members, seen := members + [k], seen + {k};
      left := left - {user};
    }
    SeenAll(net.users, all, seen);
  }

  lemma NoneSeen(table: map<string, User>, all: set<string>, left: set<User>)
    requires all <= table.Keys && forall k :: k in all ==> table[k] in left
    ensures SeenSoFar(table, all, left, {}) && Enumerates([], {})
  {}

  lemma NoJoins(n: Net, c: string)
    requires c in n.channels
    ensures SjoinLines(n, c, []) == []
  {}

  method SendChannel(net: Network, c: string) returns (out: seq<string>, ghost members: seq<string>)
    requires net.Valid() && c in net.channels
    ensures GoodVisit(net.state, Visit(c, members))
    ensures out == ChannelLines(net.state, c, members)
  {
    net.NameOf(c);
    net.BansOf(c);
    hide Network.Valid;
    var chan := net.channels[c];
    var joins, bans, pbans;
    joins, members := SendMembers(net, c);
    bans := SendBans("SBAN", chan.name, chan.bans);
    pbans := SendBans("SPBAN", chan.name, chan.pbans);
    out := joins + bans + pbans;
  }

  /** Every channel not in `left` has been visited once, in good order. */
  ghost predicate Visited(n: Net, visits: seq<Visit>, left: set<string>) {
    (forall i :: 0 <= i < |visits| ==> GoodVisit(n, visits[i]) && visits[i].c !in left) &&
    (forall i, j :: 0 <= i < j < |visits| ==> visits[i].c != visits[j].c) &&
    (forall c :: c in n.channels && c !in left ==> exists i :: 0 <= i < |visits| && visits[i].c == c)
  }

  lemma VisitedMore(n: Net, visits: seq<Visit>, left: set<string>, v: Visit)
    requires Visited(n, visits, left) && GoodVisit(n, v) && v.c in left
    ensures Visited(n, visits + [v], left - {v.c})
  {
    hide GoodVisit;
    var more := visits + [v];
    forall c | c in n.channels && c !in left - {v.c} ensures exists i :: 0 <= i < |more| && more[i].c == c {
      if c == v.c {
        assert more[|visits|].c == c;
      } else {
        var i :| 0 <= i < |visits| && visits[i].c == c;
        assert more[i].c == c;
      }
    }
  }

  method SendChannels(net: Network) returns (out: seq<string>, ghost visits: seq<Visit>)
    requires net.Valid()
    ensures Visited(net.state, visits, {})
    ensures forall i :: 0 <= i < |visits| ==> Visitable(net.state, visits[i])
    ensures out == ChannelsLines(net.state, visits)
  {
    hide *;
    KeysMatch(net);
    out, visits := [], [];
    var left := net.channels.Keys;
    NothingVisited(net.state);
    while left != {}
      invariant left <= net.channels.Keys && Visited(net.state, visits, left)
      invariant forall i :: 0 <= i < |visits| ==> Visitable(net.state, visits[i])
      invariant out == ChannelsLines(net.state, visits)
    {
      var c :| c in left;
      var lines;
      ghost var members;
      lines, members := SendChannel(net, c);
      GoodIsVisitable(net.state, Visit(c, members));
      ChannelsLinesAppend(net.state, visits, Visit(c, members));
      VisitedMore(net.state, visits, left, Visit(c, members));
      out := out + lines;
      visits := visits + [Visit(c, members)];
      left := left - {c};
    }
  }

  lemma KeysMatch(net: Network)
    requires net.Valid()
    ensures net.channels.Keys == net.state.channels.Keys
  {}

  lemma NothingVisited(n: Net)
    ensures Visited(n, [], n.channels.Keys) && ChannelsLines(n, []) == []
  {}

  lemma GoodIsVisitable(n: Net, v: Visit)
    requires GoodVisit(n, v)
    ensures Visitable(n, v)
  {}

  method SendMemos(memos: seq<Memo>) returns (out: seq<string>)
    ensures out == MemoLines(memos)
  {
    out := [];
    var i := 0;
    while i < |memos|
      invariant 0 <= i <= |memos|
      invariant out + MemoLines(memos[i..]) == MemoLines(memos)
    {
      assert memos[i..][1..] == memos[i + 1..];
      out := out + [MemoLine(memos[i])];
      i := i + 1;
    }
    assert out + [] == out;
  }

  /** `Server::sendBurst`: the lines are a burst of the state in some walking order. */
  method SendBurst(net: Network, g: Greeting) returns (out: seq<string>, ghost order: Order)
    requires net.Valid()
    ensures GoodOrder(net.state, order) && out == BurstLines(g, net.state, order)
  {
    hide Network.Valid;
    hide UsersLines;
    hide ChannelsLines;
    hide MemoLines;
    out := ["HUB " + g.hub, "SERVER " + g.server];
    if g.version.Some? { out := out + ["VERSION " + g.version.value]; } else { out := out + []; }
    var users, channels, memos;
    ghost var nicks, visits;
    users, nicks := SendUsers(net);
    channels, visits := SendChannels(net);
    memos := SendMemos(g.memos);
    out, order := out + users + channels + memos, Order(nicks, visits);
  }

  /** A peer parses the lines it receives, one after the other, until one stops it. */
  method ParseAll(net: Network, lines: seq<string>, w: World) returns (outcome: Outcome)
    requires net.Valid()
    modifies net.repr
    ensures net.Valid() && fresh(net.repr - old(net.repr))
    ensures match FeedAll(w, old(net.state), lines)
            case Took(n) => outcome == Done && net.state == n
            case Crash => outcome == Crashed
            case Hang => outcome == Hung
  {
    hide Network.Valid;
    hide Feed;
    hide FeedAll;
    ghost var goal := FeedAll(w, net.state, lines);
    outcome := Done;
    var i := 0;
    assert lines[0..] == lines;
    while i < |lines|
      invariant 0 <= i <= |lines| && outcome == Done
      invariant net.Valid() && fresh(net.repr - old(net.repr))
      invariant FeedAll(w, net.state, lines[i..]) == goal
    {
      FeedNext(w, net.state, lines, i);
      outcome := Parse(net, lines[i], w);
      if outcome != Done { return; }
      i := i + 1;
    }
    FeedNone(w, net.state, lines);
  }

  /** A server sends its burst and a fresh peer parses every line: the peer crashes on a mask
      that does not arrive, or ends with the state transferred, which has the same channels if
      and only if none was empty. */
  method Synchronise(origin: Network, g: Greeting, peer: Network, w: World) returns (outcome: Outcome)
    requires origin.Valid() && peer.Valid() && origin.repr !! peer.repr
    requires Sendable(origin.state) && SendableMemos(g.memos) && peer.state == NOTHING
    modifies peer.repr
    ensures origin.Valid() && peer.Valid() && origin.state == old(origin.state)
    ensures outcome == if AllArrive(origin.state) then Done else Crashed
    ensures AllArrive(origin.state) ==> peer.state == Transferred(origin.state)
    ensures AllArrive(origin.state) ==>
              (peer.state.channels.Keys == origin.state.channels.Keys <==> NoEmptyChannel(origin.state))
  {
    hide *;
    ChannelsAgreeIff(origin.state);
    GraphOf(origin);
    var lines;
    ghost var order;
    lines, order := SendBurst(origin, g);
    BurstTransfers(w, g, origin.state, order);
    outcome := ParseAll(peer, lines, w);
  }

  lemma FeedNext(w: World, n: Net, lines: seq<string>, i: nat)
    requires i < |lines|
    ensures FeedAll(w, n, lines[i..]) ==
            match Feed(w, n, lines[i]) case Took(n') => FeedAll(w, n', lines[i + 1..]) case stopped => stopped
  {
    hide Feed;
    assert lines[i..][0] == lines[i] && lines[i..][1..] == lines[i + 1..];
  }

  lemma FeedNone(w: World, n: Net, lines: seq<string>)
    ensures FeedAll(w, n, lines[|lines|..]) == Took(n)
  {
    assert lines[|lines|..] == [];
  }

  lemma GraphOf(net: Network)
    requires net.Valid()
    ensures Coherent(net.state) && net in net.repr
  {}
}
