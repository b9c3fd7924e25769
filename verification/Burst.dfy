/** The burst: `Server::sendBurst` writes the network state as lines of text, and a fresh
    peer rebuilds it from them. */
module Burst {
  import opened Text
  import opened Glob
  import opened ChannelState
  import opened NetState
  import opened Peer

  // ---------------------------------------------------------------- the sending half

  function Letter(on: bool, c: string): string { if on then c else "" }

  function Modos(u: UserRec): string {
    var m := Letter(u.r, "r") + (Letter(u.z, "z") + (Letter(u.w, "w") + Letter(u.o, "o")));
    if m == "" then "+x" else "+" + m
  }

  function SnickLine(u: UserRec): string {
    Join(["SNICK", u.nick, u.ident, u.host, u.cloak, u.vhost, ToString(u.login), u.server, Modos(u)])
  }

  function UserLines(u: UserRec): seq<string> {
    [SnickLine(u)] + (match u.away case Some(a) => ["AWAY " + u.nick + " " + a] case None => [])
  }

  function RankMode(ch: Chan, k: string): string {
    if k in ch.ops then "+o" else if k in ch.halfs then "+h" else if k in ch.voices then "+v" else "+x"
  }

  function SjoinLine(n: Net, c: string, k: string): string
    requires c in n.channels && k in n.users
  {
    Join(["SJOIN", n.users[k].nick, n.channels[c].name, RankMode(n.channels[c].body, k)])
  }

  function BanLine(cmd: string, name: string, b: Ban): string { Join([cmd, name, b.mask, b.who, ToString(b.when)]) }

  function BanLines(cmd: string, name: string, bans: seq<Ban>): seq<string> {
    if bans == [] then [] else [BanLine(cmd, name, bans[0])] + BanLines(cmd, name, bans[1..])
  }

  function UsersLines(n: Net, ks: seq<string>): seq<string>
    requires forall k :: k in ks ==> k in n.users
  {
    if ks == [] then [] else UserLines(n.users[ks[0]]) + UsersLines(n, ks[1..])
  }

  function SjoinLines(n: Net, c: string, ks: seq<string>): seq<string>
    requires c in n.channels && forall k :: k in ks ==> k in n.users
  {
    if ks == [] then [] else [SjoinLine(n, c, ks[0])] + SjoinLines(n, c, ks[1..])
  }

  function ChannelLines(n: Net, c: string, ks: seq<string>): seq<string>
    requires c in n.channels && forall k :: k in ks ==> k in n.users
  {
    var r := n.channels[c];
    SjoinLines(n, c, ks) + BanLines("SBAN", r.name, r.body.bans) + BanLines("SPBAN", r.name, r.body.pbans)
  }

  /** The iteration order over a channel's members: any. */
  datatype Visit = Visit(c: string, members: seq<string>)

  predicate Distinct(s: seq<string>) { forall i, j :: 0 <= i < j < |s| ==> s[i] != s[j] }

  ghost predicate Enumerates(s: seq<string>, all: set<string>) { Distinct(s) && forall k :: k in s <==> k in all }

  predicate Visitable(n: Net, v: Visit) { v.c in n.channels && forall k :: k in v.members ==> k in n.users }

  ghost predicate GoodVisit(n: Net, v: Visit) { Visitable(n, v) && Enumerates(v.members, n.channels[v.c].body.users) }

  function ChannelsLines(n: Net, vs: seq<Visit>): seq<string>
    requires forall i :: 0 <= i < |vs| ==> Visitable(n, vs[i])
  {
    if |vs| == 0 then [] else
      assert Visitable(n, vs[0]);
      ChannelLines(n, vs[0].c, vs[0].members) + ChannelsLines(n, vs[1..])
  }

  /** An order in which the tables and the member sets may be walked. */
  datatype Order = Order(nicks: seq<string>, visits: seq<Visit>)

  ghost predicate GoodOrder(n: Net, order: Order) {
    Enumerates(order.nicks, n.users.Keys) &&
    (forall i :: 0 <= i < |order.visits| ==> GoodVisit(n, order.visits[i])) &&
    (forall i, j :: 0 <= i < j < |order.visits| ==> order.visits[i].c != order.visits[j].c) &&
    (forall c :: c in n.channels ==> exists i :: 0 <= i < |order.visits| && order.visits[i].c == c)
  }

  datatype Memo = Memo(sender: string, receptor: string, time: int, text: string)

  /** What the burst says besides the tables: no version in a cluster. */
  datatype Greeting = Greeting(hub: string, server: string, version: Option<string>, memos: seq<Memo>)

  function GreetingLines(g: Greeting): seq<string> {
    ["HUB " + g.hub, "SERVER " + g.server] + match g.version case None => [] case Some(v) => ["VERSION " + v]
  }

  function MemoLine(m: Memo): string { Join(["MEMO", m.sender, m.receptor, ToString(m.time)]) + " " + m.text }

  function MemoLines(memos: seq<Memo>): seq<string> {
    if |memos| == 0 then [] else [MemoLine(memos[0])] + MemoLines(memos[1..])
  }

  /** All lines of the burst, in the order sent. */
  function BurstLines(g: Greeting, n: Net, order: Order): seq<string>
    requires forall k :: k in order.nicks ==> k in n.users
    requires forall i :: 0 <= i < |order.visits| ==> Visitable(n, order.visits[i])
  {
    GreetingLines(g) + UsersLines(n, order.nicks) + ChannelsLines(n, order.visits) + MemoLines(g.memos)
  }

  // ---------------------------------------------------------------- what can be sent

  predicate AwayText(a: string) { a != "" && SingleSpaced(a) && Trim(a) == a }

  predicate SendableUser(u: UserRec) {
    Word(u.nick) && Word(u.ident) && Word(u.host) && Word(u.cloak) && Word(u.vhost) && Word(u.server) &&
    FitsInt(u.login) && (u.away.Some? ==> AwayText(u.away.value))
  }

  predicate SendableBans(bans: seq<Ban>) {
    forall b :: b in bans ==> Word(b.mask) && Word(b.who) && FitsInt(b.when)
  }

  ghost predicate SendableUsers(n: Net) { forall k :: k in n.users ==> SendableUser(n.users[k]) }

  ghost predicate SendableNames(n: Net) { forall c :: c in n.channels ==> Word(n.channels[c].name) }

  /** Words and numbers survive being printed and split; nothing is asked of what masks mean. */
  ghost predicate Sendable(n: Net) {
    SendableUsers(n) && SendableNames(n) &&
    forall c :: c in n.channels ==> SendableBans(n.channels[c].body.bans) && SendableBans(n.channels[c].body.pbans)
  }

  predicate SendableMemos(memos: seq<Memo>) {
    forall m :: m in memos ==> Word(m.sender) && Word(m.receptor) && FitsInt(m.time)
  }

  // ---------------------------------------------------------------- one line at a time

  lemma CommandWords()
    ensures Upper("SNICK") == "SNICK" && Upper("AWAY") == "AWAY" && Upper("SJOIN") == "SJOIN"
    ensures Upper("SBAN") == "SBAN" && Upper("SPBAN") == "SPBAN"
    ensures Word("SNICK") && Word("AWAY") && Word("SJOIN") && Word("SBAN") && Word("SPBAN")
  {}

  /** The user as the peer first stores it: not local, in no channel yet. */
  function RemoteUser(u: UserRec): UserRec { u.(local := false, channels := {}) }

  lemma FlagHead(v: UserRec, on: bool, c: char, rest: string)
    requires c != 'x'
    ensures WithFlags(v, Letter(on, [c]) + rest) == WithFlags(if on then FlagSet(v, c, true) else v, rest)
  {
    if on {
      assert ([c] + rest)[1..] == rest;
    } else {
      assert "" + rest == rest;
    }
  }

  lemma FlagsRoundTrip(u: UserRec, v: UserRec)
    requires v == u.(r := false, z := false, w := false, o := false)
    ensures WithFlags(v, Modos(u)[1..]) == u
    ensures Word(Modos(u))
  {
    var o := Letter(u.o, "o");
    var wo := Letter(u.w, "w") + o;
    var zwo := Letter(u.z, "z") + wo;
    var v1, v2, v3 := v.(r := u.r), v.(r := u.r, z := u.z), v.(r := u.r, z := u.z, w := u.w);
    FlagHead(v, u.r, 'r', zwo);
    FlagHead(v1, u.z, 'z', wo);
    FlagHead(v2, u.w, 'w', o);
    FlagHead(v3, u.o, 'o', "");
    assert o + "" == o;
    var m := Letter(u.r, "r") + zwo;
    if m == "" { assert Modos(u)[1..] == "x"; } else { assert Modos(u)[1..] == m; }
  }

  lemma SnickTokens(u: UserRec)
    requires SendableUser(u)
    ensures SnickLine(u) != ""
    ensures Tokens(SnickLine(u), " ") ==
            ["SNICK", u.nick, u.ident, u.host, u.cloak, u.vhost, ToString(u.login), u.server, Modos(u)]
  {
    CommandWords();
    StoiOfToString(u.login);
    FlagsRoundTrip(u, u.(r := false, z := false, w := false, o := false));
    var ts := ["SNICK", u.nick, u.ident, u.host, u.cloak, u.vhost, ToString(u.login), u.server, Modos(u)];
    TokensOfJoin(ts);
    JoinIsSingleSpaced(ts);
  }

  lemma SnickFed(w: World, n: Net, u: UserRec)
    requires SendableUser(u) && Lower(u.nick) !in n.users
    ensures Feed(w, n, SnickLine(u)) == Took(n.(users := n.users[Lower(u.nick) := RemoteUser(u).(away := None)]))
  {
    CommandWords();
    SnickTokens(u);
    StoiOfToString(u.login);
    var x := Tokens(SnickLine(u), " ");
    var u1 := RemoteUser(u).(away := None);
    var u0 := UserRec(x[1], x[2], x[3], x[4], x[5], x[7], u.login, false, false, false, false, None, false, {});
    assert u0 == u1.(r := false, z := false, w := false, o := false);
    FlagsRoundTrip(u1, u0);
    assert Modos(u1) == Modos(u);
    assert FeedSnick(n, x) == Took(AddUser(n, u1));
  }

  /** A login time that does not fit an int stops the peer, and nothing else about a user of
      space-free words does. */
  lemma SnickTakenIff(w: World, n: Net, u: UserRec)
    requires SendableUser(u.(login := 0)) && Lower(u.nick) !in n.users
    ensures Feed(w, n, SnickLine(u)) == Crash <==> !FitsInt(u.login)
    ensures Feed(w, n, SnickLine(u)).Took? <==> FitsInt(u.login)
  {
    if FitsInt(u.login) {
      SnickFed(w, n, u);
    } else {
      CommandWords();
      FlagsRoundTrip(u, u.(r := false, z := false, w := false, o := false));
      StoiOfToString(u.login);
      var ts := ["SNICK", u.nick, u.ident, u.host, u.cloak, u.vhost, ToString(u.login), u.server, Modos(u)];
      hide Stoi;
      hide ToString;
      TokensOfJoin(ts);
      JoinIsSingleSpaced(ts);
      hide Join;
      hide Tokens;
      assert Feed(w, n, SnickLine(u)) == FeedSnick(n, ts);
    }
  }

  lemma {:induction false} SpreadIsJoin(ts: seq<string>)
    requires ts != []
    ensures Spread(ts) == Join(ts) + " "
  {
    if |ts| > 1 { SpreadIsJoin(ts[1..]); }
    else { assert Spread(ts[1..]) == ""; }
  }

  /** The away text a peer stores on receiving a given one. */
  function Received(a: string): Option<string> {
    var ts := Tokens(a, " ");
    if ts == [] then None else Some(Trim(Spread(ts)))
  }

  lemma TrimSpread(ts: seq<string>)
    requires ts != []
    ensures Trim(Spread(ts)) == Trim(Join(ts))
  {
    SpreadIsJoin(ts);
    var s := Join(ts) + " ";
    assert s[..|s| - 1] == Join(ts);
  }

  ghost predicate NoDoubleSpace(s: string) {
    forall i, j :: 0 <= i < |s| && 0 <= j < |s| && j == i + 1 ==> !(s[i] == ' ' && s[j] == ' ')
  }

  lemma {:induction false} RTrimShape(s: string)
    requires NoDoubleSpace(s)
    ensures var r := RTrim(s); NoDoubleSpace(r) && RTrim(r) == r && (r != "" ==> !IsBlank(r[|r| - 1]))
  {
    if s != "" && IsBlank(s[|s| - 1]) { RTrimShape(s[..|s| - 1]); }
  }

  lemma {:induction false} LTrimShape(s: string)
    requires NoDoubleSpace(s) && (s != "" ==> !IsBlank(s[|s| - 1]))
    ensures var r := LTrim(s);
            NoDoubleSpace(r) && LTrim(r) == r && (r != "" ==> !IsBlank(r[0]) && !IsBlank(r[|r| - 1]))
  {
    if s != "" && IsBlank(s[0]) { LTrimShape(s[1..]); }
  }

  /** An away text arrives unchanged exactly when it is non-empty, single-spaced and trimmed. */
  lemma AwaySurvives(a: string)
    ensures Received(a) == Some(a) <==> AwayText(a)
  {
    var ts := Tokens(a, " ");
    JoinIsSingleSpaced(ts);
    assert ts == [] ==> Join(ts) == "";
    if ts != [] {
      TrimSpread(ts);
      RTrimShape(Join(ts));
      LTrimShape(RTrim(Join(ts)));
    }
    RejoinExact(a);
    if Received(a) == Some(a) {
      assert a == Trim(Join(ts));
      assert NoDoubleSpace(a);
      RejoinExact(a);
    }
  }

  lemma AwayTokens(nick: string, a: string)
    requires Word(nick)
    ensures Tokens("AWAY " + nick + " " + a, " ") == ["AWAY", nick] + Tokens(a, " ")
  {
    CommandWords();
    WordsThenText(["AWAY", nick], a);
    assert Join(["AWAY", nick]) == "AWAY " + nick;
  }

  lemma AwayFed(w: World, n: Net, nick: string, a: string)
    requires Word(nick) && AwayText(a) && Lower(nick) in n.users
    ensures Feed(w, n, "AWAY " + nick + " " + a) ==
            Took(n.(users := n.users[Lower(nick) := n.users[Lower(nick)].(away := Some(a))]))
  {
    CommandWords();
    AwaySurvives(a);
    AwayTokens(nick, a);
    var x := Tokens("AWAY " + nick + " " + a, " ");
    assert x[0] == "AWAY" && x[1] == nick && x[2..] == Tokens(a, " ");
    assert Tokens(a, " ") != [];
  }

  /** Both lines of a user together. */
  lemma UserFed(w: World, n: Net, u: UserRec)
    requires SendableUser(u) && Lower(u.nick) !in n.users
    ensures FeedAll(w, n, UserLines(u)) == Took(n.(users := n.users[Lower(u.nick) := RemoteUser(u)]))
  {
    hide Feed;
    hide SnickLine;
    var k := Lower(u.nick);
    var n1 := n.(users := n.users[k := RemoteUser(u).(away := None)]);
    SnickFed(w, n, u);
    FeedOne(w, n, SnickLine(u));
    if u.away.Some? {
      var a := u.away.value;
      var line := "AWAY " + u.nick + " " + a;
      AwayFed(w, n1, u.nick, a);
      FeedOne(w, n1, line);
      FeedAppend(w, n, [SnickLine(u)], [line]);
      assert RemoteUser(u).(away := None).(away := Some(a)) == RemoteUser(u);
      assert n1.users[k := RemoteUser(u)] == n.users[k := RemoteUser(u)];
    } else {
      assert RemoteUser(u).(away := None) == RemoteUser(u);
      assert UserLines(u) == [SnickLine(u)];
    }
  }

  ghost function Mirror(n: Net, ks: seq<string>): map<string, UserRec> {
    map k | k in n.users && k in ks :: RemoteUser(n.users[k])
  }

  lemma MirrorStep(n: Net, base: map<string, UserRec>, ks: seq<string>)
    requires ks != [] && ks[0] in n.users
    ensures base[ks[0] := RemoteUser(n.users[ks[0]])] + Mirror(n, ks[1..]) == base + Mirror(n, ks)
  {
    assert forall x :: x in ks <==> x == ks[0] || x in ks[1..];
  }

  lemma {:induction false} UsersArrive(w: World, n: Net, base: Net, ks: seq<string>)
    requires SendableUsers(n) && Keyed(n)
    requires Distinct(ks) && forall k :: k in ks ==> k in n.users && k !in base.users
    ensures FeedAll(w, base, UsersLines(n, ks)) == Took(base.(users := base.users + Mirror(n, ks)))
    decreases |ks|
  {
    hide Feed;
    hide UserLines;
    hide RemoteUser;
    hide SendableUser;
    hide Lower;
    if ks == [] {
      assert base.users + Mirror(n, ks) == base.users;
    } else {
      var k := ks[0];
      assert SendableUser(n.users[k]) && Lower(n.users[k].nick) == k;
      UserFed(w, base, n.users[k]);
      var base' := base.(users := base.users[k := RemoteUser(n.users[k])]);
      FeedAppend(w, base, UserLines(n.users[k]), UsersLines(n, ks[1..]));
      assert forall x :: x in ks[1..] ==> x in ks && x != k;
      UsersArrive(w, n, base', ks[1..]);
      MirrorStep(n, base.users, ks);
    }
  }

  // ---------------------------------------------------------------- channels

  /** The one rank that SJOIN carries for each member; ranks of others are not sent. */
  function Highest(ch: Chan): Chan {
    ch.(ops := ch.ops * ch.users, halfs := ch.halfs * ch.users - ch.ops,
        voices := ch.voices * ch.users - ch.ops - ch.halfs)
  }

  function Only(ch: Chan, s: set<string>): Chan {
    Chan(ch.users * s, ch.ops * s, ch.halfs * s, ch.voices * s, [], [], false)
  }

  /** A mask the peer's own bans match is skipped; None when looking for it reads past the end. */
  function AbsorbBan(ch: Chan, b: Ban, permanent: bool): Option<Chan> {
    match IsBan(ch, b.mask)
    case Undefined => None
    case Yes => Some(ch)
    case No => Some(if permanent then ch.(pbans := ch.pbans + [b]) else ch.(bans := ch.bans + [b]))
  }

  function Absorb(ch: Chan, bans: seq<Ban>, permanent: bool): Option<Chan>
    decreases |bans|
  {
    if bans == [] then Some(ch)
    else match AbsorbBan(ch, bans[0], permanent) case None => None case Some(ch') => Absorb(ch', bans[1..], permanent)
  }

  function Unbanned(ch: Chan): Chan { Highest(ch).(bans := [], pbans := [], orphaned := false) }

  /** The channel as it stands on the peer after its lines, if the peer gets through them. */
  function Arrived(ch: Chan): Option<Chan> {
    match Absorb(Unbanned(ch), ch.bans, false) case None => None case Some(ch') => Absorb(ch', ch.pbans, true)
  }

  /** ... and a channel in any case. */
  function Landed(ch: Chan): Chan { match Arrived(ch) case None => EMPTY case Some(ch') => ch' }

  /** The peer when the channels in `done` are complete; one without members never opens. */
  ghost function Stage(n: Net, done: set<string>): Net {
    Net(map k | k in n.users :: RemoteUser(n.users[k]).(channels := n.users[k].channels * done),
        map c | c in n.channels && n.channels[c].body.users != {} && c in done ::
          n.channels[c].(body := Landed(n.channels[c].body)))
  }

  /** A user who, besides its channels in `done`, may have joined `c`. */
  ghost function Entrant(u: UserRec, done: set<string>, c: string, joined: bool): UserRec {
    RemoteUser(u).(channels := u.channels * done + if joined then {c} else {})
  }

  lemma EntrantJoins(u: UserRec, done: set<string>, c: string)
    ensures var e := Entrant(u, done, c, false); e.(channels := e.channels + {c}) == Entrant(u, done, c, true)
    ensures Entrant(u, done, c, false) == RemoteUser(u).(channels := u.channels * done)
  {
    assert u.channels * done + {} + {c} == u.channels * done + {c};
    assert u.channels * done + {} == u.channels * done;
  }

  /** ... and the members in `s` of channel `c` have joined. */
  ghost function Joining(n: Net, done: set<string>, c: string, s: set<string>): Net
    requires c in n.channels
  {
    Net(map k | k in n.users :: Entrant(n.users[k], done, c, k in s),
        if s == {} then Stage(n, done).channels
        else Stage(n, done).channels[c := ChanRec(n.channels[c].name, Only(Highest(n.channels[c].body), s))])
  }

  lemma SjoinFed(w: World, n: Net, peer: Net, c: string, k: string)
    requires c in n.channels && k in n.users
    requires SendableUser(n.users[k]) && Word(n.channels[c].name) && Keyed(n)
    ensures Feed(w, peer, SjoinLine(n, c, k)) ==
            Took(RemoteJoin(peer, k, n.channels[c].name, RankLetterOf(RankMode(n.channels[c].body, k))))
  {
    CommandWords();
    var mode := RankMode(n.channels[c].body, k);
    var ts := ["SJOIN", n.users[k].nick, n.channels[c].name, mode];
    assert Word(mode);
    TokensOfJoin(ts);
    JoinIsSingleSpaced(ts);
  }

  lemma MemberBody(ch: Chan, s: set<string>, k: string)
    requires k in ch.users
    ensures var b := Only(Highest(ch), s).(users := ch.users * s + {k});
            var b' := match RankLetterOf(RankMode(ch, k)) case None => b case Some(r) => b.With(r, b.Holders(r) + {k});
            b' == Only(Highest(ch), s + {k})
  {
    var h := Highest(ch);
    assert h.users * (s + {k}) == ch.users * s + {k};
    assert h.ops * (s + {k}) == h.ops * s + if k in h.ops then {k} else {};
    assert h.halfs * (s + {k}) == h.halfs * s + if k in h.halfs then {k} else {};
    assert h.voices * (s + {k}) == h.voices * s + if k in h.voices then {k} else {};
  }

  lemma OnlyShape(ch: Chan, s: set<string>)
    ensures Only(Highest(ch), {}) == EMPTY
    ensures Only(Highest(ch), s).users == ch.users * s
  {}

  lemma ChannelOpens(n: Net, done: set<string>, c: string, s: set<string>)
    requires Coherent(n) && c in n.channels && c !in done
    ensures OpenChannel(Joining(n, done, c, s), n.channels[c].name) ==
            Joining(n, done, c, s).(channels :=
              Stage(n, done).channels[c := ChanRec(n.channels[c].name, Only(Highest(n.channels[c].body), s))])
  {
    hide Only;
    hide Highest;
    hide Landed;
    OnlyShape(n.channels[c].body, s);
    assert Lower(n.channels[c].name) == c;
  }

  lemma MemberLinks(n: Net, done: set<string>, c: string, s: set<string>, k: string)
    requires c in n.channels && k in n.users && k !in s
    ensures var users := Joining(n, done, c, s).users;
            users[k := users[k].(channels := users[k].channels + {c})] == Joining(n, done, c, s + {k}).users
  {
    hide Stage;
    hide Only;
    hide Entrant;
    EntrantJoins(n.users[k], done, c);
  }

  lemma MemberArrives(w: World, n: Net, done: set<string>, c: string, s: set<string>, k: string)
    requires SendableUsers(n) && SendableNames(n) && Coherent(n) && c in n.channels && c !in done
    requires k in n.channels[c].body.users && k !in s && k in n.users
    ensures Feed(w, Joining(n, done, c, s), SjoinLine(n, c, k)) == Took(Joining(n, done, c, s + {k}))
  {
    hide Feed;
    hide SjoinLine;
    hide Stage;
    hide Highest;
    hide Only;
    var peer, peer' := Joining(n, done, c, s), Joining(n, done, c, s + {k});
    var ch, name := n.channels[c].body, n.channels[c].name;
    assert Lower(name) == c;
    SjoinFed(w, n, peer, c, k);
    MemberBody(ch, s, k);
    OnlyShape(ch, s);
    ChannelOpens(n, done, c, s);
    MemberLinks(n, done, c, s, k);
    var rank := RankLetterOf(RankMode(ch, k));
    var got := RemoteJoin(peer, k, name, rank);
    assert got.channels[c] == ChanRec(name, Only(Highest(ch), s + {k}));
    assert got.channels == peer'.channels by { assert peer'.channels[c] == ChanRec(name, Only(Highest(ch), s + {k})); }
    assert got.users == peer'.users;
  }

  lemma {:induction false} MembersArrive(w: World, n: Net, done: set<string>, c: string, s: set<string>,
                                         ks: seq<string>)
    requires SendableUsers(n) && SendableNames(n) && Coherent(n) && c in n.channels && c !in done
    requires s <= n.channels[c].body.users && Distinct(ks)
    requires forall k :: k in ks ==> k in n.users && k in n.channels[c].body.users && k !in s
    ensures FeedAll(w, Joining(n, done, c, s), SjoinLines(n, c, ks)) ==
            Took(Joining(n, done, c, s + set k | k in ks))
    decreases |ks|
  {
    hide Joining;
    hide Feed;
    hide SjoinLine;
    hide SendableUsers;
    hide SendableNames;
    hide Coherent;
    if ks == [] {
      assert s + (set k | k in ks) == s;
    } else {
      var k := ks[0];
      MemberArrives(w, n, done, c, s, k);
      assert forall x :: x in ks[1..] ==> x in ks && x != k;
      MembersArrive(w, n, done, c, s + {k}, ks[1..]);
      assert SjoinLines(n, c, ks)[1..] == SjoinLines(n, c, ks[1..]);
      assert s + {k} + (set x | x in ks[1..]) == s + set x | x in ks;
    }
  }

  lemma BanTokens(cmd: string, name: string, b: Ban)
    requires Word(cmd) && Word(name) && Word(b.mask) && Word(b.who)
    ensures BanLine(cmd, name, b) != ""
    ensures Tokens(BanLine(cmd, name, b), " ") == [cmd, name, b.mask, b.who, ToString(b.when)]
  {
    StoiOfToString(b.when);
    var ts := [cmd, name, b.mask, b.who, ToString(b.when)];
    TokensOfJoin(ts);
    JoinIsSingleSpaced(ts);
  }

  lemma BanFed(w: World, peer: Net, name: string, b: Ban, permanent: bool)
    requires Word(name) && Word(b.mask) && Word(b.who) && FitsInt(b.when)
    requires Lower(name) in peer.channels
    ensures Feed(w, peer, BanLine(if permanent then "SPBAN" else "SBAN", name, b)) ==
            match AbsorbBan(peer.channels[Lower(name)].body, b, permanent)
            case None => Crash
            case Some(ch) => Took(WithBody(peer, Lower(name), ch))
  {
    hide BanLine;
    hide Stoi;
    hide ToString;
    hide IsBan;
    CommandWords();
    StoiOfToString(b.when);
    WithBodySame(peer, Lower(name));
    var cmd := if permanent then "SPBAN" else "SBAN";
    BanTokens(cmd, name, b);
    var x := [cmd, name, b.mask, b.who, ToString(b.when)];
    assert Ban(x[2], x[3], b.when) == b;
    hide WithBody;
    assert Feed(w, peer, BanLine(cmd, name, b)) == FeedBan(peer, x, permanent);
  }

  /** A ban's time that does not fit stops the peer exactly when the mask would be added. */
  lemma BanTimeStopsIff(w: World, peer: Net, name: string, b: Ban, permanent: bool)
    requires Word(name) && Word(b.mask) && Word(b.who) && !FitsInt(b.when) && Lower(name) in peer.channels
    ensures Feed(w, peer, BanLine(if permanent then "SPBAN" else "SBAN", name, b)) ==
            if IsBan(peer.channels[Lower(name)].body, b.mask) == Yes then Took(peer) else Crash
  {
    hide BanLine;
    hide Stoi;
    hide ToString;
    hide IsBan;
    CommandWords();
    StoiOfToString(b.when);
    var cmd := if permanent then "SPBAN" else "SBAN";
    BanTokens(cmd, name, b);
    var x := [cmd, name, b.mask, b.who, ToString(b.when)];
    hide WithBody;
    assert Feed(w, peer, BanLine(cmd, name, b)) == FeedBan(peer, x, permanent);
  }

  lemma {:induction false} BansArrive(w: World, peer: Net, name: string, bans: seq<Ban>, permanent: bool)
    requires Word(name) && SendableBans(bans) && Lower(name) in peer.channels
    ensures FeedAll(w, peer, BanLines(if permanent then "SPBAN" else "SBAN", name, bans)) ==
            match Absorb(peer.channels[Lower(name)].body, bans, permanent)
            case None => Crash
            case Some(ch) => Took(WithBody(peer, Lower(name), ch))
    decreases |bans|
  {
    hide Feed;
    hide BanLine;
    hide AbsorbBan;
    hide Lower;
    var c, cmd := Lower(name), if permanent then "SPBAN" else "SBAN";
    var ch := peer.channels[c].body;
    if bans == [] {
      WithBodySame(peer, c);
    } else {
      assert bans[0] in bans;
      BanFed(w, peer, name, bans[0], permanent);
      assert BanLines(cmd, name, bans)[1..] == BanLines(cmd, name, bans[1..]);
      if AbsorbBan(ch, bans[0], permanent).Some? {
        var ch' := AbsorbBan(ch, bans[0], permanent).value;
        assert SendableBans(bans[1..]) by { assert forall b :: b in bans[1..] ==> b in bans; }
        BansArrive(w, WithBody(peer, c, ch'), name, bans[1..], permanent);
        if Absorb(ch', bans[1..], permanent).Some? {
          WithBodyTwice(peer, c, ch', Absorb(ch', bans[1..], permanent).value);
        }
      }
    }
  }

  lemma NobodyJoined(n: Net, done: set<string>, c: string)
    requires c in n.channels
    ensures Joining(n, done, c, {}) == Stage(n, done)
  {
    hide Only;
    hide Highest;
    hide Landed;
    hide Entrant;
    forall k | k in n.users ensures Joining(n, done, c, {}).users[k] == Stage(n, done).users[k] {
      EntrantJoins(n.users[k], done, c);
    }
    assert Joining(n, done, c, {}).users == Stage(n, done).users;
  }

  lemma OnlyAll(ch: Chan)
    ensures Only(Highest(ch), ch.users) == Unbanned(ch)
  {}

  /** All members in, no ban yet. */
  lemma MembersIn(w: World, n: Net, done: set<string>, v: Visit)
    requires SendableUsers(n) && SendableNames(n) && Coherent(n)
    requires GoodVisit(n, v) && v.c !in done && n.channels[v.c].body.users != {}
    ensures var peer := Joining(n, done, v.c, n.channels[v.c].body.users);
            FeedAll(w, Stage(n, done), SjoinLines(n, v.c, v.members)) == Took(peer) &&
            v.c in peer.channels && peer.channels[v.c] ==
              ChanRec(n.channels[v.c].name, Unbanned(n.channels[v.c].body))
  {
    hide Feed;
    hide FeedAll;
    hide SjoinLines;
    hide Stage;
    hide Only;
    hide Highest;
    var c, ch := v.c, n.channels[v.c].body;
    NobodyJoined(n, done, c);
    MembersArrive(w, n, done, c, {}, v.members);
    assert {} + (set k | k in v.members) == ch.users;
    OnlyAll(ch);
  }

  lemma EntrantsSettle(n: Net, done: set<string>, c: string)
    requires Coherent(n) && c in n.channels
    ensures Joining(n, done, c, n.channels[c].body.users).users == Stage(n, done + {c}).users
  {
    hide Landed;
    hide Only;
    var users := n.channels[c].body.users;
    forall k | k in n.users
      ensures Entrant(n.users[k], done, c, k in users) ==
              RemoteUser(n.users[k]).(channels := n.users[k].channels * (done + {c}))
    {
      assert Joined(n, k, c) <==> Member(n, k, c);
      assert n.users[k].channels * (done + {c}) == n.users[k].channels * done + if k in users then {c} else {};
    }
  }

  lemma StageGrows(n: Net, done: set<string>, c: string, body: Chan)
    requires Coherent(n) && c in n.channels && c !in done && n.channels[c].body.users != {}
    requires body == Landed(n.channels[c].body)
    ensures var peer := Joining(n, done, c, n.channels[c].body.users);
            c in peer.channels && WithBody(peer, c, body) == Stage(n, done + {c})
  {
    EntrantsSettle(n, done, c);
    hide Landed;
    hide Only;
    hide Highest;
    hide Entrant;
    var peer := Joining(n, done, c, n.channels[c].body.users);
    assert WithBody(peer, c, body).channels == Stage(n, done + {c}).channels;
  }

  /** A peer that does not have the channel takes no notice of its bans. */
  lemma {:induction false} BansIgnored(w: World, peer: Net, name: string, bans: seq<Ban>, permanent: bool)
    requires Word(name) && SendableBans(bans) && Lower(name) !in peer.channels
    ensures FeedAll(w, peer, BanLines(if permanent then "SPBAN" else "SBAN", name, bans)) == Took(peer)
    decreases |bans|
  {
    hide Feed;
    hide BanLine;
    hide Lower;
    var cmd := if permanent then "SPBAN" else "SBAN";
    if bans != [] {
      assert bans[0] in bans;
      BanIgnored(w, peer, name, bans[0], permanent);
      assert BanLines(cmd, name, bans)[1..] == BanLines(cmd, name, bans[1..]);
      assert SendableBans(bans[1..]) by { assert forall b :: b in bans[1..] ==> b in bans; }
      BansIgnored(w, peer, name, bans[1..], permanent);
    }
  }

  lemma BanIgnored(w: World, peer: Net, name: string, b: Ban, permanent: bool)
    requires Word(name) && Word(b.mask) && Word(b.who) && Lower(name) !in peer.channels
    ensures Feed(w, peer, BanLine(if permanent then "SPBAN" else "SBAN", name, b)) == Took(peer)
  {
    hide BanLine;
    hide Stoi;
    hide ToString;
    hide IsBan;
    CommandWords();
    var cmd := if permanent then "SPBAN" else "SBAN";
    BanTokens(cmd, name, b);
    var x := [cmd, name, b.mask, b.who, ToString(b.when)];
    assert Feed(w, peer, BanLine(cmd, name, b)) == FeedBan(peer, x, permanent);
  }

  lemma {:induction false} EmptyAbsorbs(ch: Chan, bans: seq<Ban>, permanent: bool)
    requires ch.users == {}
    ensures Absorb(ch, bans, permanent).Some? && Absorb(ch, bans, permanent).value.users == {}
    decreases |bans|
  {
    if bans != [] { EmptyAbsorbs(AbsorbBan(ch, bans[0], permanent).value, bans[1..], permanent); }
  }

  lemma EmptyArrives(ch: Chan)
    requires ch.users == {}
    ensures Arrived(ch).Some?
  {
    EmptyAbsorbs(Unbanned(ch), ch.bans, false);
    EmptyAbsorbs(Absorb(Unbanned(ch), ch.bans, false).value, ch.pbans, true);
  }

  lemma FirstIn(s: seq<string>)
    ensures s == [] || s[0] in s
  {}

  /** A channel without members leaves nothing on the peer. */
  lemma EmptyChannelArrives(w: World, n: Net, done: set<string>, v: Visit)
    requires Sendable(n) && Coherent(n)
    requires GoodVisit(n, v) && v.c !in done && n.channels[v.c].body.users == {}
    ensures FeedAll(w, Stage(n, done), ChannelLines(n, v.c, v.members)) == Took(Stage(n, done + {v.c}))
    ensures Arrived(n.channels[v.c].body).Some?
  {
    hide Feed;
    hide FeedAll;
    hide BanLines;
    hide Absorb;
    hide Landed;
    var c, r, peer := v.c, n.channels[v.c], Stage(n, done);
    EmptyArrives(r.body);
    assert Lower(r.name) == c && Word(r.name);
    FirstIn(v.members);
    assert ChannelLines(n, c, []) == BanLines("SBAN", r.name, r.body.bans) + BanLines("SPBAN", r.name, r.body.pbans);
    BansIgnored(w, peer, r.name, r.body.bans, false);
    BansIgnored(w, peer, r.name, r.body.pbans, true);
    FeedAppend(w, peer, BanLines("SBAN", r.name, r.body.bans), BanLines("SPBAN", r.name, r.body.pbans));
    forall k | k in n.users ensures n.users[k].channels * (done + {c}) == n.users[k].channels * done {
      assert Joined(n, k, c) <==> Member(n, k, c);
    }
    assert Stage(n, done + {c}).users == peer.users && Stage(n, done + {c}).channels == peer.channels;
  }

  /** The lines of a channel: with members, it stands on the peer as far as its masks arrive. */
  lemma ChannelArrives(w: World, n: Net, done: set<string>, v: Visit)
    requires Sendable(n) && Coherent(n)
    requires GoodVisit(n, v) && v.c !in done
    ensures FeedAll(w, Stage(n, done), ChannelLines(n, v.c, v.members)) ==
            if Arrived(n.channels[v.c].body).Some? then Took(Stage(n, done + {v.c})) else Crash
  {
    if n.channels[v.c].body.users == {} {
      hide *;
      EmptyChannelArrives(w, n, done, v);
    } else {
      hide *;
      FilledChannelArrives(w, n, done, v);
    }
  }

  lemma FilledChannelArrives(w: World, n: Net, done: set<string>, v: Visit)
    requires Sendable(n) && Coherent(n)
    requires GoodVisit(n, v) && v.c !in done && n.channels[v.c].body.users != {}
    ensures FeedAll(w, Stage(n, done), ChannelLines(n, v.c, v.members)) ==
            if Arrived(n.channels[v.c].body).Some? then Took(Stage(n, done + {v.c})) else Crash
  {
    hide Feed;
    hide FeedAll;
    hide Stage;
    hide Joining;
    hide SjoinLines;
    hide BanLines;
    hide Absorb;
    var c, r := v.c, n.channels[v.c];
    assert Lower(r.name) == c && Word(r.name);
    var joins := SjoinLines(n, c, v.members);
    var bans, pbans := BanLines("SBAN", r.name, r.body.bans), BanLines("SPBAN", r.name, r.body.pbans);
    hide Coherent;
    hide Enumerates;
    MembersIn(w, n, done, v);
    var peer1 := Joining(n, done, c, r.body.users);
    var ch1 := Unbanned(r.body);
    FeedAppend(w, Stage(n, done), joins, bans);
    BansArrive(w, peer1, r.name, r.body.bans, false);
    FeedAppend(w, Stage(n, done), joins + bans, pbans);
    if Absorb(ch1, r.body.bans, false).Some? {
      var ch2 := Absorb(ch1, r.body.bans, false).value;
      BansArrive(w, WithBody(peer1, c, ch2), r.name, r.body.pbans, true);
      if Arrived(r.body).Some? {
        WithBodyTwice(peer1, c, ch2, Landed(r.body));
        StageGrows(n, done, c, Landed(r.body));
      }
    }
  }

  lemma {:induction false} ChannelsArrive(w: World, n: Net, done: set<string>, vs: seq<Visit>)
    requires Sendable(n) && Coherent(n)
    requires forall i :: 0 <= i < |vs| ==> Visitable(n, vs[i]) && GoodVisit(n, vs[i]) && vs[i].c !in done
    requires forall i, j :: 0 <= i < j < |vs| ==> vs[i].c != vs[j].c
    ensures FeedAll(w, Stage(n, done), ChannelsLines(n, vs)) ==
            if forall i :: 0 <= i < |vs| ==> Arrived(n.channels[vs[i].c].body).Some?
            then Took(Stage(n, done + set v | v in vs :: v.c)) else Crash
    decreases |vs|
  {
    hide Feed;
    hide Stage;
    hide Arrived;
    hide ChannelLines;
    hide Sendable;
    hide Coherent;
    hide GoodVisit;
    if |vs| == 0 {
      assert done + (set v | v in vs :: v.c) == done;
    } else {
      ChannelArrives(w, n, done, vs[0]);
      FeedAppend(w, Stage(n, done), ChannelLines(n, vs[0].c, vs[0].members), ChannelsLines(n, vs[1..]));
      ChannelsArrive(w, n, done + {vs[0].c}, vs[1..]);
      assert forall v :: v in vs <==> v == vs[0] || v in vs[1..];
      assert done + {vs[0].c} + (set v | v in vs[1..] :: v.c) == done + set v | v in vs :: v.c;
      assert (forall i :: 0 <= i < |vs| ==> Arrived(n.channels[vs[i].c].body).Some?) <==>
        Arrived(n.channels[vs[0].c].body).Some? &&
        forall i :: 0 <= i < |vs| - 1 ==> Arrived(n.channels[vs[1..][i].c].body).Some?;
    }
  }

  // ---------------------------------------------------------------- state transfer

  /** What the peer must hold after the burst: every user, now remote, with its memberships;
      every channel that has members, with these, each at its highest rank. */
  ghost function Transferred(n: Net): Net {
    Net(map k | k in n.users :: n.users[k].(local := false),
        map c | c in n.channels && n.channels[c].body.users != {} ::
          n.channels[c].(body := Landed(n.channels[c].body)))
  }

  /** The peer then has the same channels if and only if none was empty. */
  lemma ChannelsAgreeIff(n: Net)
    ensures Transferred(n).channels.Keys == n.channels.Keys <==> NoEmptyChannel(n)
  {
    assert forall c :: c in Transferred(n).channels <==> c in n.channels && n.channels[c].body.users != {};
    if Transferred(n).channels.Keys == n.channels.Keys {
      forall c | c in n.channels ensures n.channels[c].body.users != {} { assert c in Transferred(n).channels.Keys; }
    }
  }

  lemma FirstStage(n: Net, ks: seq<string>)
    requires Enumerates(ks, n.users.Keys)
    ensures Net(map[] + Mirror(n, ks), map[]) == Stage(n, {})
  {
    hide Landed;
    forall k | k in n.users
      ensures RemoteUser(n.users[k]) == RemoteUser(n.users[k]).(channels := n.users[k].channels * {}) {
      assert n.users[k].channels * {} == {};
    }
    assert map[] + Mirror(n, ks) == Stage(n, {}).users;
    assert Stage(n, {}).channels == map[];
  }

  lemma LastStage(n: Net, done: set<string>)
    requires Coherent(n) && forall c :: c in n.channels ==> c in done
    ensures Stage(n, done) == Transferred(n)
  {
    forall k | k in n.users ensures Stage(n, done).users[k] == Transferred(n).users[k] {
      forall c | c in n.users[k].channels ensures c in done { assert Joined(n, k, c) <==> Member(n, k, c); }
      assert n.users[k].channels * done == n.users[k].channels;
    }
    assert Stage(n, done).users == Transferred(n).users;
    assert Stage(n, done).channels == Transferred(n).channels;
  }

  /** No search of the peer for a mask it is sent reads past the end. */
  ghost predicate AllArrive(n: Net) { forall c :: c in n.channels ==> Arrived(n.channels[c].body).Some? }

  /** State transfer: the burst of a coherent state, in any walking order, makes a fresh peer
      hold that state but for its empty channels, or crashes it exactly when some mask does not
      arrive. */
  lemma BurstTransfers(w: World, g: Greeting, n: Net, order: Order)
    requires Sendable(n) && SendableMemos(g.memos) && Coherent(n) && GoodOrder(n, order)
    ensures FeedAll(w, NOTHING, BurstLines(g, n, order)) == if AllArrive(n) then Took(Transferred(n)) else Crash
  {
    hide *;
    TablesTransfer(w, n, order);
    Greeted(w, NOTHING, g);
    Visitables(n, order);
    var tables := UsersLines(n, order.nicks) + ChannelsLines(n, order.visits);
    FeedAppend(w, NOTHING, GreetingLines(g), tables);
    FeedAppend(w, NOTHING, GreetingLines(g) + tables, MemoLines(g.memos));
    MemosFed(w, Transferred(n), g.memos);
    BurstIs(g, n, order);
  }

  lemma Visitables(n: Net, order: Order)
    requires GoodOrder(n, order)
    ensures forall k :: k in order.nicks ==> k in n.users
    ensures forall i :: 0 <= i < |order.visits| ==> Visitable(n, order.visits[i])
  {}

  lemma BurstIs(g: Greeting, n: Net, order: Order)
    requires GoodOrder(n, order)
    ensures BurstLines(g, n, order) ==
            GreetingLines(g) + (UsersLines(n, order.nicks) + ChannelsLines(n, order.visits)) + MemoLines(g.memos)
  {
    hide GreetingLines;
    hide UsersLines;
    hide ChannelsLines;
    hide MemoLines;
    var a, b, c := GreetingLines(g), UsersLines(n, order.nicks), ChannelsLines(n, order.visits);
    assert a + b + c == a + (b + c);
  }

  /** Every channel is visited, so the visits decide whether all masks arrive. */
  lemma VisitsCover(n: Net, order: Order)
    requires GoodOrder(n, order)
    ensures forall c :: c in n.channels ==> c in {} + set v | v in order.visits :: v.c
    ensures (forall i :: 0 <= i < |order.visits| ==> Arrived(n.channels[order.visits[i].c].body).Some?) <==>
            AllArrive(n)
  {
    hide Arrived;
    hide Enumerates;
    forall c | c in n.channels ensures exists v :: v in order.visits && v.c == c {
      var i :| 0 <= i < |order.visits| && order.visits[i].c == c;
      assert order.visits[i] in order.visits;
    }
  }

  lemma TablesTransfer(w: World, n: Net, order: Order)
    requires Sendable(n) && Coherent(n) && GoodOrder(n, order)
    ensures FeedAll(w, NOTHING, UsersLines(n, order.nicks) + ChannelsLines(n, order.visits)) ==
            if AllArrive(n) then Took(Transferred(n)) else Crash
  {
    hide Feed;
    hide FeedAll;
    hide Stage;
    hide Transferred;
    hide UsersLines;
    hide ChannelsLines;
    hide Arrived;
    hide AllArrive;
    hide SendableUser;
    hide SendableBans;
    hide Linked;
    hide RanksKnown;
    UsersArrive(w, n, NOTHING, order.nicks);
    FirstStage(n, order.nicks);
    ChannelsArrive(w, n, {}, order.visits);
    FeedAppend(w, NOTHING, UsersLines(n, order.nicks), ChannelsLines(n, order.visits));
    VisitsCover(n, order);
    LastStage(n, {} + set v | v in order.visits :: v.c);
  }

  // ---------------------------------------------------------------- the other lines

  lemma HeadedTokens(cmd: string, rest: string)
    requires Word(cmd)
    ensures Tokens(cmd + " " + rest, " ") == [cmd] + Tokens(rest, " ")
  {
    var tail := " " + rest;
    TokenThenRest(cmd, tail, " ");
    assert tail[1..] == rest && cmd + " " + rest == cmd + tail;
  }

  /** Words and then any text. */
  lemma {:induction false} WordsThenText(ts: seq<string>, rest: string)
    requires AreTokens(ts, " ") && |ts| > 0
    ensures Tokens(Join(ts) + " " + rest, " ") == ts + Tokens(rest, " ")
  {
    hide Tokens;
    if |ts| == 1 {
      HeadedTokens(ts[0], rest);
    } else {
      WordsThenText(ts[1..], rest);
      HeadedTokens(ts[0], Join(ts[1..]) + " " + rest);
      assert Join(ts) + " " + rest == ts[0] + " " + (Join(ts[1..]) + " " + rest);
      assert [ts[0]] + (ts[1..] + Tokens(rest, " ")) == ts + Tokens(rest, " ");
    }
  }

  lemma GreetingFed(w: World, n: Net, cmd: string, rest: string)
    requires cmd == "HUB" || cmd == "SERVER" || cmd == "VERSION"
    ensures Feed(w, n, cmd + " " + rest) == Took(n)
  {
    hide Feed;
    hide Tokens;
    HeadedTokens(cmd, rest);
    assert Upper("HUB") == "HUB" && Upper("SERVER") == "SERVER" && Upper("VERSION") == "VERSION";
    Unread(w, n, cmd + " " + rest);
  }

  lemma Greeted(w: World, n: Net, g: Greeting)
    ensures FeedAll(w, n, GreetingLines(g)) == Took(n)
  {
    hide Feed;
    GreetingFed(w, n, "HUB", g.hub);
    GreetingFed(w, n, "SERVER", g.server);
    assert "HUB" + " " + g.hub == "HUB " + g.hub && "SERVER" + " " + g.server == "SERVER " + g.server;
    FeedOne(w, n, "HUB " + g.hub);
    FeedOne(w, n, "SERVER " + g.server);
    FeedAppend(w, n, ["HUB " + g.hub], ["SERVER " + g.server]);
    if g.version.Some? {
      var line := "VERSION " + g.version.value;
      GreetingFed(w, n, "VERSION", g.version.value);
      assert "VERSION" + " " + g.version.value == line;
      FeedOne(w, n, line);
      FeedAppend(w, n, ["HUB " + g.hub] + ["SERVER " + g.server], [line]);
    }
    hide FeedAll;
    assert ["HUB " + g.hub] + ["SERVER " + g.server] == ["HUB " + g.hub, "SERVER " + g.server];
    assert ["HUB " + g.hub, "SERVER " + g.server] + [] == ["HUB " + g.hub, "SERVER " + g.server];
  }

  lemma MemoFed(w: World, n: Net, m: Memo)
    requires Word(m.sender) && Word(m.receptor) && FitsInt(m.time)
    ensures Feed(w, n, MemoLine(m)) == Took(n)
  {
    hide Stoi;
    hide ToString;
    StoiOfToString(m.time);
    assert Upper("MEMO") == "MEMO" && Word("MEMO");
    WordsThenText(["MEMO", m.sender, m.receptor, ToString(m.time)], m.text);
    hide Tokens;
  }

  lemma {:induction false} MemosFed(w: World, n: Net, memos: seq<Memo>)
    requires SendableMemos(memos)
    ensures FeedAll(w, n, MemoLines(memos)) == Took(n)
    decreases |memos|
  {
    hide Feed;
    hide MemoLine;
    if |memos| > 0 {
      assert memos[0] in memos;
      MemoFed(w, n, memos[0]);
      assert SendableMemos(memos[1..]) by { assert forall m :: m in memos[1..] ==> m in memos; }
      MemosFed(w, n, memos[1..]);
      assert MemoLines(memos)[1..] == MemoLines(memos[1..]);
    }
  }

  // ---------------------------------------------------------------- what arrives

  lemma {:induction false} AbsorbKeepsMembers(ch: Chan, bans: seq<Ban>, permanent: bool)
    requires Absorb(ch, bans, permanent).Some?
    ensures var r := Absorb(ch, bans, permanent).value; r.users == ch.users && SameRanks(r, ch)
    decreases |bans|
  {
    if bans != [] { AbsorbKeepsMembers(AbsorbBan(ch, bans[0], permanent).value, bans[1..], permanent); }
  }

  /** Members always arrive; every member keeps exactly its ranks if and only if ranks are
      exclusive and held by members. */
  lemma RanksArriveIffExclusive(ch: Chan)
    requires Arrived(ch).Some?
    ensures Landed(ch).users == ch.users
    ensures SameRanks(Landed(ch), ch) <==> ch.Exclusive() && ch.Ranked()
  {
    var h := Unbanned(ch);
    AbsorbKeepsMembers(h, ch.bans, false);
    AbsorbKeepsMembers(Absorb(h, ch.bans, false).value, ch.pbans, true);
    HighestIsSame(ch);
  }

  lemma HighestIsSame(ch: Chan)
    ensures SameRanks(Highest(ch), ch) <==> ch.Exclusive() && ch.Ranked()
  {
    var h := Highest(ch);
    if h.ops == ch.ops { assert forall u :: u in ch.ops ==> u in h.ops; }
    if h.halfs == ch.halfs { assert forall u :: u in ch.halfs ==> u in h.halfs; }
    if h.voices == ch.voices { assert forall u :: u in ch.voices ==> u in h.voices; }
  }

  lemma {:induction false} NoQuestionAbsorbed(ch: Chan, bans: seq<Ban>, permanent: bool)
    requires QuestionFree(ch) && AllNoQuestion(bans)
    ensures Absorb(ch, bans, permanent).Some? && QuestionFree(Absorb(ch, bans, permanent).value)
    decreases |bans|
  {
    if bans != [] {
      var b := bans[0];
      assert b in bans && forall x :: x in bans[1..] ==> x in bans;
      ScanDefined(ch.bans, Lower(b.mask));
      ScanDefined(ch.pbans, Lower(b.mask));
      hide BanScan;
      NoQuestionAbsorbed(AbsorbBan(ch, b, permanent).value, bans[1..], permanent);
    }
  }

  /** Masks without `?` always arrive. */
  lemma NoQuestionsArrive(n: Net)
    requires NoQuestions(n)
    ensures AllArrive(n)
  {
    forall c | c in n.channels ensures Arrived(n.channels[c].body).Some? {
      var ch := n.channels[c].body;
      NoQuestionAbsorbed(Unbanned(ch), ch.bans, false);
      NoQuestionAbsorbed(Absorb(Unbanned(ch), ch.bans, false).value, ch.pbans, true);
    }
  }

  // ---------------------------------------------------------------- bans

  ghost predicate Bans(ch: Chan, text: string) { Hits(ch.bans, text) || Hits(ch.pbans, text) }

  lemma HitsAppend(bans: seq<Ban>, b: Ban, text: string)
    ensures Hits(bans + [b], text) <==> Hits(bans, text) || Wild(Lower(b.mask), Lower(text))
  {
    if Hits(bans, text) {
      var x :| x in bans && Wild(Lower(x.mask), Lower(text));
      assert x in bans + [b];
    }
    assert b in bans + [b];
  }

  lemma AbsorbBanMeaning(ch: Chan, b: Ban, permanent: bool, text: string)
    requires AllClean(ch.bans) && AllClean(ch.pbans) && Clean(b.mask) && NoStar(text) && ch.users != {}
    ensures var r := AbsorbBan(ch, b, permanent);
            r.Some? && AllClean(r.value.bans) && AllClean(r.value.pbans) && r.value.users == ch.users &&
            (Bans(r.value, text) <==> Bans(ch, text) || Wild(Lower(b.mask), Lower(text)))
  {
    CleanIsDecided(ch.bans);
    CleanIsDecided(ch.pbans);
    IsBanMeaning(ch, text);
    CleanHasNoQuestion(ch.bans);
    CleanHasNoQuestion(ch.pbans);
    ScanDefined(ch.bans, Lower(b.mask));
    ScanDefined(ch.pbans, Lower(b.mask));
    if IsBan(ch, b.mask) == Yes {
      if Wild(Lower(b.mask), Lower(text)) { RefusedBanIsRedundant(ch, b.mask, text); }
    } else {
      HitsAppend(ch.bans, b, text);
      HitsAppend(ch.pbans, b, text);
    }
  }

  lemma CleanHasNoQuestion(bans: seq<Ban>)
    ensures AllClean(bans) ==> AllNoQuestion(bans)
  {}

  lemma {:induction false} AbsorbMeaning(ch: Chan, bans: seq<Ban>, permanent: bool, text: string)
    requires AllClean(ch.bans) && AllClean(ch.pbans) && AllClean(bans) && NoStar(text) && ch.users != {}
    ensures var r := Absorb(ch, bans, permanent);
            r.Some? && AllClean(r.value.bans) && AllClean(r.value.pbans) && r.value.users == ch.users &&
            (Bans(r.value, text) <==> Bans(ch, text) || Hits(bans, text))
    decreases |bans|
  {
    hide AbsorbBan;
    if bans != [] {
      assert bans[0] in bans;
      AbsorbBanMeaning(ch, bans[0], permanent, text);
      assert AllClean(bans[1..]) by { assert forall b :: b in bans[1..] ==> b in bans; }
      AbsorbMeaning(AbsorbBan(ch, bans[0], permanent).value, bans[1..], permanent, text);
      if Hits(bans, text) {
        var b :| b in bans && Wild(Lower(b.mask), Lower(text));
        assert b == bans[0] || b in bans[1..];
      }
      if Hits(bans[1..], text) {
        var b :| b in bans[1..] && Wild(Lower(b.mask), Lower(text));
        assert b in bans;
      }
    }
  }

  /** The ban verdict survives the burst filter: the peer may hold fewer masks, yet bans
      exactly the same user masks, in whatever order the masks were sent. */
  lemma BanVerdictSurvives(ch: Chan, text: string)
    requires ch.users != {} && AllClean(ch.bans) && AllClean(ch.pbans) && NoStar(text)
    ensures Arrived(ch).Some? && IsBan(Landed(ch), text) == IsBan(ch, text)
  {
    var h := Unbanned(ch);
    AbsorbMeaning(h, ch.bans, false, text);
    AbsorbMeaning(Absorb(h, ch.bans, false).value, ch.pbans, true, text);
    hide Absorb;
    CleanIsDecided(ch.bans);
    CleanIsDecided(ch.pbans);
    CleanIsDecided(Landed(ch).bans);
    CleanIsDecided(Landed(ch).pbans);
    IsBanMeaning(ch, text);
    IsBanMeaning(Landed(ch), text);
  }

  /** Name, members and ranks of a channel. */
  predicate SameMembers(here: ChanRec, there: ChanRec) {
    here.name == there.name && here.body.users == there.body.users && SameRanks(here.body, there.body)
  }

  /** Whatever the masks: the burst of a state whose ranks are exclusive and held by members is
      taken exactly when every mask arrives, and the peer then has the same users, all remote,
      and every channel that has members, with the same members and ranks; the channel tables
      agree exactly when none was empty. Without `?` every mask arrives. */
  lemma BurstCarriesGraph(w: World, g: Greeting, n: Net, order: Order)
    requires Sendable(n) && SendableMemos(g.memos) && Graph(n) && ExclusiveRanks(n) && GoodOrder(n, order)
    ensures var fed := FeedAll(w, NOTHING, BurstLines(g, n, order));
            (fed.Took? <==> AllArrive(n)) && (NoQuestions(n) ==> fed.Took?) &&
            (fed.Took? ==>
              fed.net.users == (map k | k in n.users :: n.users[k].(local := false)) &&
              (fed.net.channels.Keys == n.channels.Keys <==> NoEmptyChannel(n)) &&
              (forall c :: c in fed.net.channels <==> c in n.channels && n.channels[c].body.users != {}) &&
              forall c :: c in fed.net.channels ==> SameMembers(n.channels[c], fed.net.channels[c]))
  {
    hide FeedAll;
    hide BurstLines;
    hide Arrived;
    hide Landed;
    hide NoQuestions;
    BurstTransfers(w, g, n, order);
    ChannelsAgreeIff(n);
    if NoQuestions(n) { NoQuestionsArrive(n); }
    if AllArrive(n) {
      forall c | c in Transferred(n).channels ensures SameMembers(n.channels[c], Transferred(n).channels[c]) {
        RanksArriveIffExclusive(n.channels[c].body);
      }
    }
  }

  ghost predicate SameVerdicts(here: ChanRec, there: ChanRec) {
    forall text | NoStar(text) :: IsBan(here.body, text) == IsBan(there.body, text)
  }

  ghost predicate CleanMasks(n: Net) {
    forall c :: c in n.channels ==> AllClean(n.channels[c].body.bans) && AllClean(n.channels[c].body.pbans)
  }

  lemma CleanMasksArrive(n: Net)
    requires CleanMasks(n)
    ensures AllArrive(n)
  {
    hide Arrived;
    forall c | c in n.channels ensures Arrived(n.channels[c].body).Some? {
      var ch := n.channels[c].body;
      if ch.users == {} { EmptyArrives(ch); } else { BanVerdictSurvives(ch, ""); }
    }
  }

  /** The whole claim, where masks have no `?` and do not end in `**`: the burst is taken, the
      peer has the same users, the same channels but for empty ones, their members and ranks,
      and bans the same user masks. */
  lemma BurstRebuilds(w: World, g: Greeting, n: Net, order: Order)
    requires Sendable(n) && SendableMemos(g.memos) && Graph(n) && ExclusiveRanks(n) && GoodOrder(n, order)
    requires CleanMasks(n)
    ensures var fed := FeedAll(w, NOTHING, BurstLines(g, n, order));
            fed.Took? &&
            fed.net.users == (map k | k in n.users :: n.users[k].(local := false)) &&
            (fed.net.channels.Keys == n.channels.Keys <==> NoEmptyChannel(n)) &&
            (forall c :: c in fed.net.channels <==> c in n.channels && n.channels[c].body.users != {}) &&
            forall c :: c in fed.net.channels ==>
              SameMembers(n.channels[c], fed.net.channels[c]) && SameVerdicts(n.channels[c], fed.net.channels[c])
  {
    hide FeedAll;
    hide BurstLines;
    hide Arrived;
    hide Landed;
    hide IsBan;
    hide SameMembers;
    BurstTransfers(w, g, n, order);
    BurstCarriesGraph(w, g, n, order);
    CleanMasksArrive(n);
    forall c | c in Transferred(n).channels ensures SameVerdicts(n.channels[c], Transferred(n).channels[c]) {
      var ch := n.channels[c].body;
      forall text | NoStar(text) ensures IsBan(ch, text) == IsBan(Landed(ch), text) { BanVerdictSurvives(ch, text); }
    }
  }
}
