/** The channel commands on the objects: ChanServ's automatic modes and rank commands,
    KICK, the MODE letter loop and the JOIN loop, each branch by branch as in the source,
    proved to make the step that `NetState` and `ChannelState` define. */
module Commands {
  import opened Text
  import Glob
  import opened ChannelState
  import opened NetState
  import opened Network

  // ---------------------------------------------------------------- rank moves, announced

  /** The network is where the effect says, and the changes sent out are the effect's. */
  ghost predicate Stands(net: Network, before: Net, c: string, e: Effect, sent: seq<Change>)
    requires c in before.channels
    reads net
  {
    net.state == WithBody(before, c, e.chan) && sent == e.changes
  }

  /** A rank given with its MODE and CMODE lines. */
  method Give(net: Network, chan: Channel, user: User, r: Rank, sent: seq<Change>, ghost before: Net, ghost e: Effect)
    returns (more: seq<Change>)
    requires net.Valid() && net.Registered(user) && net.Listed(chan)
    requires Lower(chan.name) in before.channels && Stands(net, before, Lower(chan.name), e, sent)
    modifies net`state, chan
    ensures net.Valid() && chan.users == old(chan.users)
    ensures Stands(net, before, Lower(chan.name), ChannelState.Give(e, Lower(user.nick), r), more)
  {
    hide Network.Valid;
    net.SetRank(chan, user, r, true);
    WithBodyTwice(before, Lower(chan.name), e.chan, ChannelState.Give(e, Lower(user.nick), r).chan);
    more := sent + [Change(true, r, Lower(user.nick))];
  }

  method Take(net: Network, chan: Channel, user: User, r: Rank, sent: seq<Change>, ghost before: Net, ghost e: Effect)
    returns (more: seq<Change>)
    requires net.Valid() && net.Registered(user) && net.Listed(chan)
    requires Lower(chan.name) in before.channels && Stands(net, before, Lower(chan.name), e, sent)
    modifies net`state, chan
    ensures net.Valid() && chan.users == old(chan.users)
    ensures Stands(net, before, Lower(chan.name), ChannelState.Take(e, Lower(user.nick), r), more)
  {
    hide Network.Valid;
    net.SetRank(chan, user, r, false);
    WithBodyTwice(before, Lower(chan.name), e.chan, ChannelState.Take(e, Lower(user.nick), r).chan);
    more := sent + [Change(false, r, Lower(user.nick))];
  }

  /** The pointer sets answer as the effect's channel does. */
  lemma Looks(net: Network, chan: Channel, user: User, before: Net, e: Effect, sent: seq<Change>)
    requires net.Valid() && net.Registered(user) && net.Listed(chan)
    requires Lower(chan.name) in before.channels && Stands(net, before, Lower(chan.name), e, sent)
    ensures forall r :: chan.Holds(user, r) <==> Lower(user.nick) in e.chan.Holders(r)
    ensures user in chan.users <==> Lower(user.nick) in e.chan.users
  {
    chan.Answers(net.state.channels[Lower(chan.name)], net.users, Lower(user.nick));
  }

  method TakeIfHeld(net: Network, chan: Channel, user: User, r: Rank, sent: seq<Change>, ghost before: Net,
                    ghost e: Effect)
    returns (more: seq<Change>)
    requires net.Valid() && net.Registered(user) && net.Listed(chan)
    requires Lower(chan.name) in before.channels && Stands(net, before, Lower(chan.name), e, sent)
    modifies net`state, chan
    ensures net.Valid() && chan.users == old(chan.users)
    ensures Stands(net, before, Lower(chan.name), ChannelState.TakeIfHeld(e, Lower(user.nick), r), more)
  {
    Looks(net, chan, user, before, e, sent);
    hide Network.Valid;
    if chan.Holds(user, r) { more := Take(net, chan, user, r, sent, before, e); } else { more := sent; }
  }

  /** One rank taken and another given, as every promotion of ChanServ does. */
  method Swap(net: Network, chan: Channel, user: User, from: Rank, to: Rank, sent: seq<Change>, ghost before: Net,
              ghost e: Effect)
    returns (more: seq<Change>)
    requires net.Valid() && net.Registered(user) && net.Listed(chan)
    requires Lower(chan.name) in before.channels && Stands(net, before, Lower(chan.name), e, sent)
    modifies net`state, chan
    ensures net.Valid() && chan.users == old(chan.users)
    ensures var k := Lower(user.nick);
            Stands(net, before, Lower(chan.name), ChannelState.Give(ChannelState.Take(e, k, from), k, to), more)
  {
    hide *;
    more := Take(net, chan, user, from, sent, before, e);
    more := Give(net, chan, user, to, more, before, ChannelState.Take(e, Lower(user.nick), from));
  }

  // ---------------------------------------------------------------- ChanServ

  /** `ChanServ::CheckModes`, with the answers of the databases as arguments. */
  method CheckModes(net: Network, user: User, chan: Channel, noop: bool, autovoice: bool, level: nat)
    returns (sent: seq<Change>)
    requires net.Valid() && net.Registered(user) && net.Listed(chan) && Lower(chan.name) in net.state.channels
    modifies net`state, chan
    ensures net.Valid() && chan.users == old(chan.users)
    ensures var e := Effect(old(net.state).channels[Lower(chan.name)].body, []);
            Stands(net, old(net.state), Lower(chan.name),
                   ChannelState.CheckModes(e, Lower(user.nick), noop, autovoice, level), sent)
  {
    hide Network.Valid;
    hide Stands;
    hide ChannelState.Give;
    hide ChannelState.Take;
    hide WithBody;
    ghost var n, c, k := net.state, Lower(chan.name), Lower(user.nick);
    ghost var e := Effect(n.channels[c].body, []);
    sent := [];
    StandsStill(net, n, c);
    Looks(net, chan, user, n, e, sent);
    if noop { return; }
    if user !in chan.users { return; }
    var access := level;
    if autovoice && access < 1 { access := 1; }
    if chan.Holds(user, Voice) {
      if access < 1 {
        sent := Take(net, chan, user, Voice, sent, n, e);
      } else if access == 2 {
        sent := Swap(net, chan, user, Voice, Half, sent, n, e);
      } else if access > 2 {
        sent := Swap(net, chan, user, Voice, Op, sent, n, e);
      }
    } else if chan.Holds(user, Half) {
      if access < 2 {
        sent := Take(net, chan, user, Half, sent, n, e);
      } else if access > 2 {
        sent := Swap(net, chan, user, Half, Op, sent, n, e);
      }
    } else if chan.Holds(user, Op) {
      if access < 3 { sent := Take(net, chan, user, Op, sent, n, e); }
    } else {
      if access == 1 { sent := Give(net, chan, user, Voice, sent, n, e); }
      else if access == 2 { sent := Give(net, chan, user, Half, sent, n, e); }
      else if access > 2 { sent := Give(net, chan, user, Op, sent, n, e); }
    }
  }

  /** The access level of a user in a channel. */
  function LevelIn(user: User, chan: Channel, s: Services): nat
    reads user
  {
    Access(s.level(user.nick, chan.name), s.founder(user.nick, chan.name), user.o)
  }

  lemma CheckedStart(n: Net, s: Services, k: string)
    requires k in n.users
    ensures CheckedIn(n, s, k, {}) == n
  {
    assert CheckedIn(n, s, k, {}).channels == n.channels;
  }

  lemma CheckedStep(n: Net, s: Services, k: string, done: set<string>, c: string)
    requires k in n.users && c in n.channels && c !in done
    ensures var m, u, rec := CheckedIn(n, s, k, done), n.users[k], n.channels[c];
            m.users == n.users && c in m.channels && m.channels[c] == rec &&
            WithBody(m, c,
                     ChannelState.CheckModes(Effect(rec.body, []), k, s.noop(u.nick), s.autovoice(rec.name),
                                             Access(s.level(u.nick, rec.name), s.founder(u.nick, rec.name), u.o)).chan)
            == CheckedIn(n, s, k, done + {c})
  {
    hide ChannelState.CheckModes;
    hide Access;
    var m, u, rec := CheckedIn(n, s, k, done), n.users[k], n.channels[c];
    var body := Checked(u, s, k, rec).body;
    assert WithBody(m, c, body).channels == CheckedIn(n, s, k, done + {c}).channels;
  }

  /** The channels in `done` are those no longer in `left`. */
  ghost predicate Visiting(n: Net, k: string, table: map<string, Channel>, left: set<Channel>, done: set<string>)
    requires k in n.users
  {
    done <= n.users[k].channels <= table.Keys && Injective(table) &&
    (forall c :: c in n.users[k].channels ==> (c in done <==> table[c] !in left))
  }

  lemma VisitedOne(n: Net, k: string, table: map<string, Channel>, left: set<Channel>, done: set<string>, c: string)
    requires k in n.users && Visiting(n, k, table, left, done)
    requires c in n.users[k].channels && c in table && table[c] in left
    ensures c !in done && Visiting(n, k, table, left - {table[c]}, done + {c})
  {}

  lemma VisitedAll(n: Net, k: string, table: map<string, Channel>, done: set<string>)
    requires k in n.users && Visiting(n, k, table, {}, done)
    ensures done == n.users[k].channels
  {}

  lemma VisitStarts(net: Network, user: User)
    requires net.Valid() && net.Registered(user)
    ensures Lower(user.nick) in net.state.users
    ensures Visiting(net.state, Lower(user.nick), net.channels, user.channels, {})
    ensures forall ch :: ch in user.channels ==>
              var c := Lower(ch.name);
              c in net.channels && net.channels[c] == ch && c in net.state.users[Lower(user.nick)].channels
  {
    var k := Lower(user.nick);
    net.NickOf(k);
    forall ch | ch in user.channels
      ensures var c := Lower(ch.name); c in net.channels && net.channels[c] == ch && c in net.state.users[k].channels
    {
      net.InChannel(user, ch);
    }
    forall c | c in net.state.users[k].channels ensures c in net.channels {
      assert Joined(net.state, k, c) <==> Member(net.state, k, c);
    }
  }

  /** The heap and the state agree on what `CheckModes` asks about. */
  lemma AskedAbout(net: Network, user: User, chan: Channel)
    requires net.Valid() && net.Registered(user) && Lower(chan.name) in net.channels
    requires net.channels[Lower(chan.name)] == chan
    ensures net.Listed(chan) && Lower(user.nick) in net.state.users && Lower(chan.name) in net.state.channels
    ensures var u := net.state.users[Lower(user.nick)];
            user.nick == u.nick && user.o == u.o && user.vhost == u.vhost &&
            user.cloak == u.cloak && user.host == u.host
    ensures chan.name == net.state.channels[Lower(chan.name)].name
  {
    net.NickOf(Lower(user.nick));
    net.NameOf(Lower(chan.name));
  }

  lemma StandsIs(net: Network, n: Net, c: string, e: Effect, sent: seq<Change>)
    requires c in n.channels && Stands(net, n, c, e, sent)
    ensures net.state == WithBody(n, c, e.chan)
  {}

  /** The loop of `cmdNick` and `Cycle` over the user's channels, in any order. */
  method CheckModesAll(net: Network, user: User, s: Services)
    requires net.Valid() && net.Registered(user)
    modifies net`state, user.channels
    ensures net.Valid() && Lower(user.nick) in old(net.state).users
    ensures net.state == CheckedIn(old(net.state), s, Lower(user.nick),
                                   old(net.state).users[Lower(user.nick)].channels)
  {
    hide *;
    ghost var n, k, done := net.state, Lower(user.nick), {};
    VisitStarts(net, user);
    CheckedStart(n, s, k);
    var left := user.channels;
    while left != {}
      invariant left <= user.channels && net.Valid() && Visiting(n, k, net.channels, left, done)
      invariant net.state == CheckedIn(n, s, k, done)
    {
      var chan :| chan in left;
      ghost var c := Lower(chan.name);
      AskedAbout(net, user, chan);
      VisitedOne(n, k, net.channels, left, done, c);
      StillListed(net, n, s, k, done, c);
      CheckedStep(n, s, k, done, c);
      ghost var m := net.state;
      var sent := CheckModes(net, user, chan, s.noop(user.nick), s.autovoice(chan.name), LevelIn(user, chan, s));
      LevelInIs(user, chan, s);
      StandsIs(net, m, c,
               ChannelState.CheckModes(Effect(m.channels[c].body, []), k, s.noop(user.nick), s.autovoice(chan.name),
                                       LevelIn(user, chan, s)), sent);
      done := done + {c};
      left := left - {chan};
    }
    VisitedAll(n, k, net.channels, done);
  }

  lemma StillListed(net: Network, n: Net, s: Services, k: string, done: set<string>, c: string)
    requires k in n.users && net.state == CheckedIn(n, s, k, done) && c in net.state.channels
    ensures c in n.channels
  {}

  lemma LevelInIs(user: User, chan: Channel, s: Services)
    ensures LevelIn(user, chan, s) == Access(s.level(user.nick, chan.name), s.founder(user.nick, chan.name), user.o)
  {}

  /** `User::Cycle`. */
  method Cycle(net: Network, user: User, s: Services)
    requires net.Valid() && net.Registered(user)
    modifies net`state, user`vhost, user.channels
    ensures net.Valid() && Lower(user.nick) in old(net.state).users
    ensures net.state == NetState.Cycle(old(net.state), s, Lower(user.nick))
  {
    hide *;
    ghost var n, k := net.state, Lower(user.nick);
    net.NoChannels(user);
    Fields(net, user);
    CycleIs(n, s, k);
    if user.channels == {} { return; }
    var vhost, oldvhost := s.vhost(user.nick), user.vhost;
    if vhost == "" { vhost := if s.registered(user.nick) then oldvhost else user.cloak; }
    if vhost == oldvhost { return; }
    net.SetVhost(user, vhost);
    CheckModesAll(net, user, s);
  }

  lemma Fields(net: Network, user: User)
    requires net.Valid() && net.Registered(user)
    ensures Lower(user.nick) in net.state.users && Lower(user.nick) in net.users
    ensures net.users[Lower(user.nick)] == user && net in net.repr && user in net.repr
    ensures var u := net.state.users[Lower(user.nick)];
            user.nick == u.nick && user.o == u.o && user.vhost == u.vhost && user.cloak == u.cloak &&
            user.host == u.host && user.ident == u.ident
    ensures user.channels <= net.channels.Values && net.channels.Values <= net.repr && net.users.Values <= net.repr
  {
    net.NickOf(Lower(user.nick));
    assert user.Is(net.state.users[Lower(user.nick)], net.channels);
  }

  lemma CycleIs(n: Net, s: Services, k: string)
    requires k in n.users
    ensures var u := n.users[k];
            var vhost := if s.vhost(u.nick) != "" then s.vhost(u.nick)
                         else if !s.registered(u.nick) then u.cloak else u.vhost;
            var n1 := Amend(n, k, u.(vhost := vhost));
            k in n1.users && n1.users[k].channels == u.channels &&
            NetState.Cycle(n, s, k) ==
            if u.channels == {} || vhost == u.vhost then n else CheckedIn(n1, s, k, u.channels)
  {
    hide CheckedIn;
  }

  lemma StandsStill(net: Network, n: Net, c: string)
    requires c in n.channels && net.state == n
    ensures Stands(net, n, c, Effect(n.channels[c].body, []), [])
  {
    WithBodySame(n, c);
  }

  /** OP, DEOP, HALFOP, DEHALFOP, VOICE, DEVOICE: the table of modules/cs.cpp. */
  method ServiceRank(net: Network, chan: Channel, target: User, modo: Rank, action: bool) returns (sent: seq<Change>)
    requires net.Valid() && net.Registered(target) && net.Listed(chan) && Lower(chan.name) in net.state.channels
    modifies net`state, chan
    ensures net.Valid() && chan.users == old(chan.users)
    ensures var e := Effect(old(net.state).channels[Lower(chan.name)].body, []);
            Stands(net, old(net.state), Lower(chan.name),
                   ChannelState.ServiceRank(e, Lower(target.nick), modo, action), sent)
  {
    hide Network.Valid;
    hide Stands;
    hide ChannelState.Give;
    hide ChannelState.Take;
    hide WithBody;
    ghost var n, c, k := net.state, Lower(chan.name), Lower(target.nick);
    ghost var e := Effect(n.channels[c].body, []);
    sent := [];
    StandsStill(net, n, c);
    Looks(net, chan, target, n, e, sent);
    if chan.Holds(target, Voice) {
      if modo == Half && action {
        sent := Swap(net, chan, target, Voice, Half, sent, n, e);
      } else if modo == Op && action {
        sent := Swap(net, chan, target, Voice, Op, sent, n, e);
      } else if modo == Voice && !action {
        sent := Take(net, chan, target, Voice, sent, n, e);
      }
    } else if chan.Holds(target, Half) {
      if modo == Voice && action {
        sent := Swap(net, chan, target, Half, Voice, sent, n, e);
      } else if modo == Op && action {
        sent := Swap(net, chan, target, Half, Op, sent, n, e);
      } else if modo == Half && !action {
        sent := Take(net, chan, target, Half, sent, n, e);
      }
    } else if chan.Holds(target, Op) {
      if modo == Voice && action {
        sent := Swap(net, chan, target, Op, Voice, sent, n, e);
      } else if modo == Half && action {
        sent := Swap(net, chan, target, Op, Half, sent, n, e);
      } else if modo == Op && !action {
        sent := Take(net, chan, target, Op, sent, n, e);
      }
    } else if target in chan.users {
      if action { sent := Give(net, chan, target, modo, sent, n, e); }
    }
  }

  // ---------------------------------------------------------------- NICK

  /** `cmdNick` for a user already registered, with the answers of the services as arguments. */
  method NickCommand(net: Network, user: User, newnick: string, s: Services)
    requires net.Valid() && net.Registered(user)
    modifies net.repr
    ensures net.Valid() && net.repr == old(net.repr)
    ensures old(Lower(user.nick)) in old(net.state).users
    ensures net.state == NetState.NickCommand(old(net.state), s, old(Lower(user.nick)), newnick)
  {
    hide *;
    ghost var n, k, b := net.state, Lower(user.nick), Lower(newnick);
    Fields(net, user);
    TableKeys(net);
    NickIs(n, s, k, newnick);
    if Lower(newnick) == Lower(user.nick) {
      net.NickMove(user, newnick);
      Fields(net, user);
      CheckModesAll(net, user, s);
    } else if Lower(newnick) !in net.users {
      net.NickMove(user, newnick);
      Fields(net, user);
      CheckModesAll(net, user, s);
      NewIdentity(net, user, s);
    }
  }

  /** What `cmdNick` does last: the cloak, the flag of IRC operators, and `Cycle`. */
  method NewIdentity(net: Network, user: User, s: Services)
    requires net.Valid() && net.Registered(user)
    modifies net`state, user`ident, user`host, user`cloak, user`vhost, user.channels
    modifies user`o, user`r, user`z, user`w
    ensures net.Valid() && Lower(user.nick) in old(net.state).users
    ensures var n, b := old(net.state), Lower(user.nick);
            var n' := Amend(n, b, n.users[b].(cloak := s.cloak(n.users[b].host), o := s.ircop(user.nick)));
            b in n'.users && net.state == NetState.Cycle(n', s, b)
  {
    hide *;
    Fields(net, user);
    ghost var n, b := net.state, Lower(user.nick);
    TwoAmends(n, b, s.cloak(user.host), s.ircop(user.nick));
    net.SetIdentity(user, user.ident, user.host, s.cloak(user.host));
    Fields(net, user);
    if s.ircop(user.nick) && !user.o { net.SetMode(user, 'o', true); }
    else if user.o && !s.ircop(user.nick) { net.SetMode(user, 'o', false); }
    Cycle(net, user, s);
  }

  lemma NickIs(n: Net, s: Services, k: string, newnick: string)
    requires k in n.users && Lower(n.users[k].nick) == k
    ensures var b, n1, whole := Lower(newnick), NickMove(n, k, newnick), NetState.NickCommand(n, s, k, newnick);
            (b != k && b in n.users ==> whole == n) &&
            (b == k || b !in n.users ==>
              b in n1.users &&
              var n2 := CheckedIn(n1, s, b, n1.users[b].channels);
              b in n2.users &&
              (b == k ==> whole == n2) &&
              (b != k ==>
                var n3 := Amend(n2, b, n2.users[b].(cloak := s.cloak(n2.users[b].host), o := s.ircop(newnick)));
                b in n3.users && whole == NetState.Cycle(n3, s, b)))
  {
    hide NetState.Cycle;
    hide Checked;
  }

  /** The cloak and then the flag, or the flag as it was. */
  lemma TwoAmends(n: Net, k: string, cloak: string, on: bool)
    requires k in n.users
    ensures var u := n.users[k];
            var n1 := Amend(n, k, u.(ident := u.ident, host := u.host, cloak := cloak));
            k in n1.users &&
            Amend(n1, k, FlagSet(n1.users[k], 'o', on)) == Amend(n, k, u.(cloak := cloak, o := on)) &&
            n1.users[k].o == u.o && (u.o == on ==> n1 == Amend(n, k, u.(cloak := cloak, o := on))) &&
            k in Amend(n, k, u.(cloak := cloak, o := on)).users
  {
    assert n.users[k := n.users[k]] == n.users;
  }

  // ---------------------------------------------------------------- KICK

  /** The KICK guard and `User::kick`, which leaves the channel in the table. */
  method Kick(net: Network, user: User, channel: string, nick: string)
    requires net.Valid() && net.Registered(user)
    modifies net.repr
    ensures net.Valid() && net.repr == old(net.repr)
    ensures net.state == NetState.Kick(old(net.state), old(Lower(user.nick)), Lower(channel), Lower(nick))
  {
    hide User.Is;
    hide Channel.Is;
    hide Coherent;
    var c, v := Lower(channel), Lower(nick);
    net.NickOf(Lower(user.nick));
    if c !in net.channels || v !in net.users { return; }
    net.NickOf(v);
    net.NameOf(c);
    var chan, victim := net.channels[c], net.users[v];
    chan.Answers(net.state.channels[c], net.users, Lower(user.nick));
    chan.Answers(net.state.channels[c], net.users, v);
    if (chan.Holds(user, Op) || chan.Holds(user, Half)) && victim in chan.users &&
       (!chan.Holds(victim, Op) || user.o) && !victim.o {
      net.Unlink(victim, chan);
    }
  }

  // ---------------------------------------------------------------- MODE

  method Promote(net: Network, chan: Channel, target: User, r: Rank, sent: seq<Change>, ghost before: Net,
                 ghost e: Effect)
    returns (more: seq<Change>)
    requires net.Valid() && net.Registered(target) && net.Listed(chan)
    requires Lower(chan.name) in before.channels && Stands(net, before, Lower(chan.name), e, sent)
    modifies net`state, chan
    ensures net.Valid() && chan.users == old(chan.users)
    ensures Stands(net, before, Lower(chan.name), ChannelState.Promote(e, Lower(target.nick), r), more)
  {
    hide Network.Valid;
    hide Stands;
    hide ChannelState.TakeIfHeld;
    hide ChannelState.Give;
    ghost var k := Lower(target.nick);
    match r {
      case Op =>
        more := TakeIfHeld(net, chan, target, Voice, sent, before, e);
        more := TakeIfHeld(net, chan, target, Half, more, before, ChannelState.TakeIfHeld(e, k, Voice));
        more := Give(net, chan, target, Op, more, before,
                     ChannelState.TakeIfHeld(ChannelState.TakeIfHeld(e, k, Voice), k, Half));
      case Half =>
        more := TakeIfHeld(net, chan, target, Op, sent, before, e);
        more := TakeIfHeld(net, chan, target, Voice, more, before, ChannelState.TakeIfHeld(e, k, Op));
        more := Give(net, chan, target, Half, more, before,
                     ChannelState.TakeIfHeld(ChannelState.TakeIfHeld(e, k, Op), k, Voice));
      case Voice =>
        more := TakeIfHeld(net, chan, target, Op, sent, before, e);
        more := TakeIfHeld(net, chan, target, Half, more, before, ChannelState.TakeIfHeld(e, k, Op));
        more := Give(net, chan, target, Voice, more, before,
                     ChannelState.TakeIfHeld(ChannelState.TakeIfHeld(e, k, Op), k, Half));
    }
  }

  /** One of the letters o, h and v. */
  method RankLetter(net: Network, user: User, chan: Channel, target: User, action: bool, r: Rank,
                    sent: seq<Change>, ghost before: Net, ghost e: Effect)
    returns (more: seq<Change>)
    requires net.Valid() && net.Registered(user) && net.Registered(target) && net.Listed(chan)
    requires Lower(chan.name) in before.channels && Stands(net, before, Lower(chan.name), e, sent)
    modifies net`state, chan
    ensures net.Valid() && chan.users == old(chan.users)
    ensures Stands(net, before, Lower(chan.name),
                   ChannelState.RankLetter(e, Lower(user.nick), user.o, action, r, Lower(target.nick)), more)
  {
    hide Network.Valid;
    hide Stands;
    hide ChannelState.Promote;
    hide ChannelState.Take;
    Looks(net, chan, user, before, e, sent);
    Looks(net, chan, target, before, e, sent);
    more := sent;
    if target !in chan.users { return; }
    if action {
      if user.o && !chan.Holds(target, r) {
        more := Promote(net, chan, target, r, sent, before, e);
      } else if chan.Holds(target, r) {
        return;
      } else if !(chan.Holds(user, Op) || (r == Voice && chan.Holds(user, Half))) {
        return;
      } else {
        more := Promote(net, chan, target, r, sent, before, e);
      }
    } else {
      var may := match r
        case Op => chan.Holds(user, Op) && chan.Holds(target, Op)
        case Half => chan.Holds(target, Half) || chan.Holds(user, Op)
        case Voice => chan.Holds(target, Voice) && (chan.Holds(user, Op) || chan.Holds(user, Half));
      if may { more := Take(net, chan, target, r, sent, before, e); }
    }
  }

  /** The loop that looks for a ban written exactly so and removes the first one. */
  method UnbanLoop(list: seq<Ban>, mask: string) returns (rest: seq<Ban>)
    ensures rest == Unban(list, mask)
  {
    var i := 0;
    while i < |list|
      invariant 0 <= i <= |list|
      invariant Unban(list, mask) == list[..i] + Unban(list[i..], mask)
    {
      assert list[i..][0] == list[i] && list[i..][1..] == list[i + 1..];
      if list[i].mask == mask { return list[..i] + list[i + 1..]; }
      assert list[..i] + [list[i]] == list[..i + 1];
      i := i + 1;
    }
    assert list[..i] == list && list[i..] == [];
    rest := list;
  }

  /** The letters b and B; false when the matcher runs past a text. */
  method BanLetter(net: Network, chan: Channel, permanent: bool, action: bool, mask: string, nick: string,
                   maxbans: nat, now: int,
                   sent: seq<Change>, ghost before: Net, ghost e: Effect, ghost me: Caller)
    returns (ok: bool)
    requires net.Valid() && net.Listed(chan) && me.nick == nick && me.maxbans == maxbans && me.now == now
    requires Lower(chan.name) in before.channels && Stands(net, before, Lower(chan.name), e, sent)
    modifies net`state, chan`bans, chan`pbans
    ensures net.Valid()
    ensures var list := ChannelState.BanLetter(e.chan,
                                               if permanent then e.chan.pbans else e.chan.bans, me, action, mask);
            ok == list.Some? &&
            (ok ==> Stands(net, before, Lower(chan.name),
                           e.(chan := if permanent then e.chan.(pbans := list.value)
                                      else e.chan.(bans := list.value)), sent))
  {
    hide *;
    ghost var c, n := Lower(chan.name), net.state;
    ListedAt(net, chan);
    net.BansOf(c);
    StandsBody(net, before, c, e, sent);
    BanLetterIs(e.chan, if permanent then e.chan.pbans else e.chan.bans, me, action, mask);
    var banned := AskBan(net, chan, Lower(mask));
    if banned == Glob.Undefined { return false; }
    var list := if permanent then chan.pbans else chan.bans;
    if action {
      if banned == Glob.No && |list| < maxbans { list := list + [Ban(mask, nick, now)]; }
    } else if banned == Glob.Yes {
      list := UnbanLoop(list, mask);
    }
    if permanent { net.SetBans(chan, chan.bans, list); } else { net.SetBans(chan, list, chan.pbans); }
    StandsAgain(net, n, before, c, e, sent, if permanent then e.chan.(pbans := list) else e.chan.(bans := list));
    ok := true;
  }

  lemma ListedAt(net: Network, chan: Channel)
    requires net.Valid() && net.Listed(chan)
    ensures Lower(chan.name) in net.channels && net.channels[Lower(chan.name)] == chan
  {}

  lemma StandsBody(net: Network, before: Net, c: string, e: Effect, sent: seq<Change>)
    requires c in before.channels && Stands(net, before, c, e, sent)
    ensures c in net.state.channels && net.state.channels[c].body == e.chan && net.state == WithBody(before, c, e.chan)
    ensures sent == e.changes
  {}

  lemma StandsAgain(net: Network, n: Net, before: Net, c: string, e: Effect, sent: seq<Change>, ch: Chan)
    requires c in before.channels && n == WithBody(before, c, e.chan) && sent == e.changes
    requires c in n.channels && net.state == WithBody(n, c, ch)
    ensures Stands(net, before, c, e.(chan := ch), sent)
  {
    WithBodyTwice(before, c, e.chan, ch);
  }

  lemma BanLetterIs(ch: Chan, list: seq<Ban>, me: Caller, on: bool, mask: string)
    ensures ChannelState.BanLetter(ch, list, me, on, mask) ==
            match ChannelState.IsBan(ch, Lower(mask))
            case Undefined => None
            case Yes => Some(if on then list else Unban(list, mask))
            case No => Some(if on && |list| < me.maxbans then list + [Ban(mask, me.nick, me.now)] else list)
  {}

  method AskBan(net: Network, chan: Channel, mask: string) returns (v: Glob.Verdict)
    requires net.Valid() && net.Listed(chan)
    ensures Lower(chan.name) in net.state.channels
    ensures v == ChannelState.IsBan(net.state.channels[Lower(chan.name)].body, mask)
  {
    v := chan.IsBan(mask, net.state.channels[Lower(chan.name)], net.users);
  }

  lemma LetterNext(modes: string, i: nat, on: bool, j: nat, e: Effect, me: Caller, params: seq<string>)
    requires i < |modes| && j < |params|
    ensures var c, n, all := modes[i], |params|, ApplyEvents(e, me, Events(modes[i..], on, j, |params|), params);
            (c == '+' ==> all == ApplyEvents(e, me, Events(modes[i + 1..], true, j, n), params)) &&
            (c == '-' ==> all == ApplyEvents(e, me, Events(modes[i + 1..], false, j, n), params)) &&
            (Recognised(c) ==>
              all == match ApplyEvent(e, me, Event(on, c, j), params)
                     case None => None
                     case Some(e') => ApplyEvents(e', me, Events(modes[i + 1..], on, j + 1, n), params)) &&
            (c != '+' && c != '-' && !Recognised(c) ==>
              all == ApplyEvents(e, me, Events(modes[i + 1..], on, j, n), params))
  {
    hide ApplyEvent;
    assert modes[i..][0] == modes[i] && modes[i..][1..] == modes[i + 1..];
    if Recognised(modes[i]) {
      var ev, rest := Event(on, modes[i], j), Events(modes[i + 1..], on, j + 1, |params|);
      assert ([ev] + rest)[1..] == rest;
    }
  }

  /** One recognised letter with its parameter. */
  method Letter(net: Network, user: User, chan: Channel, letter: char, action: bool, param: string, maxbans: nat,
                now: int,
                sent: seq<Change>, ghost before: Net, ghost e: Effect, ghost me: Caller, ghost j: nat,
                ghost params: seq<string>)
    returns (ok: bool, more: seq<Change>, ghost e': Effect)
    requires net.Valid() && net.Registered(user) && net.Listed(chan) && Recognised(letter)
    requires Lower(chan.name) in before.channels && Stands(net, before, Lower(chan.name), e, sent)
    requires me == Caller(Lower(user.nick), user.nick, user.o, net.users.Keys, maxbans, now)
    requires j < |params| && params[j] == param
    modifies net`state, chan
    ensures net.Valid()
    ensures ApplyEvent(e, me, Event(action, letter, j), params) == if ok then Some(e') else None
    ensures ok ==> Stands(net, before, Lower(chan.name), e', more)
  {
    hide Network.Valid;
    hide Stands;
    hide ChannelState.BanLetter;
    hide ChannelState.RankLetter;
    ok, more, e' := true, sent, e;
    if letter == 'b' || letter == 'B' {
      var permanent := letter == 'B';
      ok := BanLetter(net, chan, permanent, action, param, user.nick, maxbans, now, sent, before, e, me);
      if ok {
        ghost var list := ChannelState.BanLetter(e.chan,
                                                 if permanent then e.chan.pbans else e.chan.bans, me, action, param);
        e' := e.(chan := if permanent then e.chan.(pbans := list.value) else e.chan.(bans := list.value));
      }
    } else if Lower(param) in net.users {
      net.NickOf(Lower(param));
      var target := net.users[Lower(param)];
      more := RankLetter(net, user, chan, target, action, RankOf(letter), sent, before, e);
      e' := ChannelState.RankLetter(e, me.key, me.oper, action, RankOf(letter), Lower(param));
    }
  }

  /** The letter loop of MODE: `j` walks the parameters, `action` remembers the last sign. */
  method LetterLoop(net: Network, user: User, chan: Channel, modes: string, params: seq<string>, maxbans: nat, now: int)
    returns (ok: bool, sent: seq<Change>)
    requires net.Valid() && net.Registered(user) && net.Listed(chan) && Lower(chan.name) in net.state.channels
    modifies net`state, chan
    ensures net.Valid()
    ensures var n, c := old(net.state), Lower(chan.name);
            var me := Caller(Lower(user.nick), user.nick, user.o, net.users.Keys, maxbans, now);
            match ModeLetters(n.channels[c].body, me, modes, params)
            case None => !ok
            case Some(e) => ok && Stands(net, n, c, e, sent)
  {
    hide Network.Valid;
    hide Stands;
    hide ApplyEvent;
    hide ApplyEvents;
    hide Events;
    ghost var n, c := net.state, Lower(chan.name);
    ghost var me := Caller(Lower(user.nick), user.nick, user.o, net.users.Keys, maxbans, now);
    ghost var e := Effect(n.channels[c].body, []);
    StandsStill(net, n, c);
    ok, sent := true, [];
    ghost var goal := ModeLetters(n.channels[c].body, me, modes, params);
    var action, i, j := false, 0, 0;
    assert modes[0..] == modes;
    while i < |modes|
      invariant 0 <= i <= |modes| && 0 <= j <= |params|
      invariant net.Valid() && Stands(net, n, c, e, sent)
      invariant goal == ApplyEvents(e, me, Events(modes[i..], action, j, |params|), params)
    {
      if j == |params| {
        NoMoreLetters(modes[i..], action, j, e, me, params);
        return;
      }
      LetterNext(modes, i, action, j, e, me, params);
      if modes[i] == '+' {
        action := true;
      } else if modes[i] == '-' {
        action := false;
      } else if Recognised(modes[i]) {
        ok, sent, e := Letter(net, user, chan, modes[i], action, params[j], maxbans, now, sent, n, e, me, j, params);
        if !ok { return; }
        j := j + 1;
      }
      i := i + 1;
    }
    NoMoreLetters(modes[i..], action, j, e, me, params);
  }

  lemma NoMoreLetters(rest: string, on: bool, j: nat, e: Effect, me: Caller, params: seq<string>)
    requires j <= |params| && (rest == "" || j == |params|)
    ensures ApplyEvents(e, me, Events(rest, on, j, |params|), params) == Some(e)
  {}

  /** MODE on a channel: the guards, then the letters. */
  method Mode(net: Network, user: User, channel: string, registered: bool, modes: string, params: seq<string>,
              maxbans: nat, now: int)
    returns (ok: bool, sent: seq<Change>)
    requires net.Valid() && net.Registered(user)
    modifies net.repr
    ensures net.Valid() && net.repr == old(net.repr)
    ensures match NetState.Mode(old(net.state), old(Lower(user.nick)), Lower(channel), registered, maxbans, now,
                                modes, params)
            case None => !ok
            case Some(n) => ok && net.state == n
    ensures ok ==> Told(old(net.state), net.state, Lower(channel), sent)
  {
    hide User.Is;
    hide Channel.Is;
    hide Coherent;
    hide ModeLetters;
    hide Replay;
    ok, sent := true, [];
    ghost var before := net.state;
    var c := Lower(channel);
    NothingTold(before, c);
    hide Told;
    net.NickOf(Lower(user.nick));
    if !registered && !user.o { return; }
    if c !in net.channels { return; }
    net.NameOf(c);
    var chan := net.channels[c];
    chan.Answers(net.state.channels[c], net.users, Lower(user.nick));
    if !chan.Holds(user, Op) && !chan.Holds(user, Half) && !user.o { return; }
    assert user.o == net.state.users[Lower(user.nick)].o && user.nick == net.state.users[Lower(user.nick)].nick;
    ok, sent := LetterLoop(net, user, chan, modes, params, maxbans, now);
    ghost var me := Caller(Lower(user.nick), user.nick, user.o, net.users.Keys, maxbans, now);
    if ok { LettersTold(before, c, me, modes, params, net.state); }
  }

  /** What was sent, replayed by a peer on the channel as it was, gives its ranks as they are;
      without a channel nothing was sent. */
  ghost predicate Told(n: Net, n': Net, c: string, sent: seq<Change>) {
    if c in n.channels
    then c in n'.channels && SameRanks(Replay(n.channels[c].body, sent), n'.channels[c].body)
    else sent == []
  }

  lemma NothingTold(n: Net, c: string)
    ensures Told(n, n, c, [])
  {}

  lemma LettersTold(n: Net, c: string, me: Caller, modes: string, params: seq<string>, n': Net)
    requires c in n.channels && ModeLetters(n.channels[c].body, me, modes, params).Some?
    requires n' == WithBody(n, c, ModeLetters(n.channels[c].body, me, modes, params).value.chan)
    ensures Told(n, n', c, ModeLetters(n.channels[c].body, me, modes, params).value.changes)
  {
    hide ApplyEvents;
    hide Events;
    ModeAnnounced(n.channels[c].body, Effect(n.channels[c].body, []), me, Events(modes, false, 0, |params|), params);
  }

  // ---------------------------------------------------------------- JOIN

  /** A registered channel that exists: already there, banned, or on flood. */
  method Refused(net: Network, user: User, chan: Channel, p: Policy) returns (v: Glob.Verdict)
    requires net.Valid() && net.Registered(user) && net.Listed(chan)
    ensures Lower(chan.name) in net.state.channels
    ensures var u, ch := user.Rec(), net.state.channels[Lower(chan.name)].body;
            v == RefusedIn(u, Lower(user.nick), ch, p)
  {
    hide Network.Valid;
    hide ChannelState.IsBan;
    net.NameOf(Lower(chan.name));
    MemberAnswer(net, chan, user);
    if user in chan.users { return Glob.Yes; }
    var first := AskBan(net, chan, user.nick + "!" + user.ident + "@" + user.cloak);
    if first == Glob.Undefined { return Glob.Undefined; }
    if first == Glob.Yes && !user.o { return Glob.Yes; }
    var second := AskBan(net, chan, user.nick + "!" + user.ident + "@" + user.vhost);
    if second == Glob.Undefined { return Glob.Undefined; }
    if second == Glob.Yes && !user.o { return Glob.Yes; }
    if p.flooding && !user.o { return Glob.Yes; }
    v := Glob.No;
  }

  lemma MemberAnswer(net: Network, chan: Channel, user: User)
    requires net.Valid() && net.Registered(user) && net.Listed(chan)
    ensures Lower(chan.name) in net.state.channels
    ensures user in chan.users <==> Lower(user.nick) in net.state.channels[Lower(chan.name)].body.users
  {
    chan.Answers(net.state.channels[Lower(chan.name)], net.users, Lower(user.nick));
  }

  lemma Settled(net: Network, n: Net, k: string, c: string, p: Policy, sent: seq<Change>)
    requires c in n.channels
    requires Stands(net, n, c,
                    ChannelState.CheckModes(Effect(n.channels[c].body, []), k, p.noop, p.autovoice, p.access), sent)
    ensures net.state == Settle(n, k, c, p)
  {}

  /** Entering a registered channel: the membership, then the automatic modes. */
  method EnterRegistered(net: Network, user: User, name: string, p: Policy)
    requires net.Valid() && net.Registered(user)
    modifies net.repr
    ensures net.Valid() && net.Registered(user) && fresh(net.repr - old(net.repr)) && net.users == old(net.users)
    ensures user.nick == old(user.nick)
    ensures var k, c := Lower(user.nick), Lower(name);
            k in old(net.state).users && net.state == Settle(Enter(OpenChannel(old(net.state), name), k, c), k, c, p)
  {
    hide *;
    InTable(net, user);
    var chan := net.Join(user, name);
    ghost var n := net.state;
    var sent := CheckModes(net, user, chan, p.noop, p.autovoice, p.access);
    Settled(net, n, Lower(user.nick), Lower(name), p, sent);
  }

  lemma InTable(net: Network, user: User)
    requires net.Valid() && net.Registered(user)
    ensures Lower(user.nick) in net.state.users && user in net.repr && net in net.repr
    ensures var u := net.state.users[Lower(user.nick)];
            user.Rec() == u.(channels := {}) && |user.channels| == |u.channels|
  {
    net.NickOf(Lower(user.nick));
  }

  lemma FreeCases(net: Network, user: User, name: string)
    requires net.Valid() && net.Registered(user)
    ensures Lower(user.nick) in net.state.users && user in net.repr && net in net.repr
    ensures var n, k, c := net.state, Lower(user.nick), Lower(name);
            (c !in net.channels ==>
              c in Enter(OpenChannel(n, name), k, c).channels &&
              JoinFree(n, k, name) == RankMove(Enter(OpenChannel(n, name), k, c), k, c, Op, true)) &&
            (c in net.channels ==>
              JoinFree(n, k, name) == if user in net.channels[c].users then n else Enter(OpenChannel(n, name), k, c))
  {
    var k, c := Lower(user.nick), Lower(name);
    InTable(net, user);
    if c in net.channels {
      net.NameOf(c);
      MemberAnswer(net, net.channels[c], user);
    } else {
      assert {} + {k} == {k};
    }
  }

  /** Entering an unregistered channel: its creator becomes operator. */
  method EnterFree(net: Network, user: User, name: string)
    requires net.Valid() && net.Registered(user)
    modifies net.repr
    ensures net.Valid() && net.Registered(user) && fresh(net.repr - old(net.repr)) && net.users == old(net.users)
    ensures user.nick == old(user.nick)
    ensures Lower(user.nick) in old(net.state).users && net.state == JoinFree(old(net.state), Lower(user.nick), name)
  {
    hide *;
    FreeCases(net, user, name);
    if Lower(name) in net.channels {
      if user in net.channels[Lower(name)].users { return; }
      var chan := net.Join(user, name);
    } else {
      var chan := net.Join(user, name);
      net.SetRank(chan, user, Op, true);
    }
  }

  /** What JOIN decides before entering a channel, in the order of its tests. */
  lemma JoinCases(n: Net, k: string, u: UserRec, joined: nat, name: string, p: Policy, args: seq<string>, j: nat)
    requires k in n.users && u == n.users[k].(channels := {}) && joined == |n.users[k].channels|
    ensures var c, r := Lower(name), NetState.JoinOne(n, k, name, p, args, j);
            var needsKey := p.key != "" && !u.o;
            var j' := if needsKey then j + 1 else j;
            if TurnedAway(joined, name, p) then r == Some(JoinResult(n, j))
            else if !p.registered then r == Some(JoinResult(JoinFree(n, k, name), j))
            else if Barred(u, p) then r == Some(JoinResult(n, j))
            else if needsKey && |args| < 3 then r == Some(JoinResult(n, j))
            else if needsKey && j >= |args| then r == None
            else if needsKey && args[j] != "" && args[j] != p.key then r == Some(JoinResult(n, j))
            else if c in n.channels && RefusedIn(u, k, n.channels[c].body, p) == Glob.Undefined then r == None
            else if c in n.channels && RefusedIn(u, k, n.channels[c].body, p) == Glob.Yes
              then r == Some(JoinResult(n, j'))
            else r == Some(JoinResult(Settle(Enter(OpenChannel(n, name), k, c), k, c, p), j'))
  {
    hide Settle;
    hide Enter;
    hide JoinFree;
    hide TurnedAway;
    if Lower(name) in n.channels { RefusedSame(n.users[k], k, n.channels[Lower(name)].body, p); }
  }

  /** One channel of JOIN; `j` is the index of the next key among the words. */
  method JoinOne(net: Network, user: User, name: string, p: Policy, args: seq<string>, j: nat)
    returns (ok: bool, j': nat)
    requires net.Valid() && net.Registered(user)
    modifies net.repr
    ensures net.Valid() && fresh(net.repr - old(net.repr)) && net.users == old(net.users) && user.nick == old(user.nick)
    ensures Lower(user.nick) in old(net.state).users && net.Registered(user)
    ensures match NetState.JoinOne(old(net.state), Lower(user.nick), name, p, args, j)
            case None => !ok
            case Some(r) => ok && net.state == r.net && j' == r.j
  {
    hide *;
    InTable(net, user);
    TableKeys(net);
    JoinCases(net.state, Lower(user.nick), user.Rec(), |user.channels|, name, p, args, j);
    ok, j' := true, j;
    if TurnedAway(|user.channels|, name, p) { return; }
    if !p.registered { EnterFree(net, user, name); return; }
    if Barred(user.Rec(), p) { return; }
    RecOper(user);
    if p.key != "" && !user.o {
      if |args| < 3 { return; }
      if j >= |args| { return false, j; }
      if args[j] != "" && args[j] != p.key { return; }
      j' := j + 1;
    }
    if Lower(name) in net.channels {
      net.NameOf(Lower(name));
      var refused := Refused(net, user, net.channels[Lower(name)], p);
      if refused == Glob.Undefined { return false, j'; }
      if refused == Glob.Yes { return; }
    }
    EnterRegistered(net, user, name, p);
  }

  lemma TableKeys(net: Network)
    requires net.Valid()
    ensures net.channels.Keys == net.state.channels.Keys && net.users.Keys == net.state.users.Keys
  {}

  lemma RecOper(user: User)
    ensures user.Rec().o == user.o
  {}

  lemma RefusedSame(u: UserRec, k: string, ch: Chan, p: Policy)
    ensures RefusedIn(u.(channels := {}), k, ch, p) == RefusedIn(u, k, ch, p)
  {}

  /** The JOIN loop over the names; it stops where the source reads past its words. */
  method Join(net: Network, user: User, names: seq<string>, policy: string -> Policy, args: seq<string>)
    returns (ok: bool)
    requires net.Valid() && net.Registered(user)
    modifies net.repr
    ensures net.Valid() && fresh(net.repr - old(net.repr))
    ensures old(Lower(user.nick)) in old(net.state).users
    ensures match JoinAll(old(net.state), old(Lower(user.nick)), names, policy, args, 2)
            case None => !ok
            case Some(r) => ok && net.state == r.net
  {
    hide *;
    InTable(net, user);
    ghost var k := Lower(user.nick);
    ghost var goal := JoinAll(net.state, k, names, policy, args, 2);
    var i, j: nat := 0, 2;
    ok := true;
    assert names[0..] == names;
    while i < |names|
      invariant 0 <= i <= |names|
      invariant net.Valid() && net.Registered(user) && Lower(user.nick) == k && k in net.state.users
      invariant user in net.repr && net in net.repr && fresh(net.repr - old(net.repr))
      invariant goal == JoinAll(net.state, k, names[i..], policy, args, j)
    {
      JoinNext(net.state, k, names, i, policy, args, j);
      ok, j := JoinOne(net, user, names[i], policy(names[i]), args, j);
      if !ok { return; }
      InTable(net, user);
      i := i + 1;
    }
    JoinEnd(net.state, k, names, policy, args, j);
  }

  lemma JoinNext(n: Net, k: string, names: seq<string>, i: nat, policy: string -> Policy, args: seq<string>, j: nat)
    requires k in n.users && i < |names|
    ensures JoinAll(n, k, names[i..], policy, args, j) ==
            match NetState.JoinOne(n, k, names[i], policy(names[i]), args, j)
            case None => None
            case Some(r) => JoinAll(r.net, k, names[i + 1..], policy, args, r.j)
  {
    hide NetState.JoinOne;
    assert names[i..][0] == names[i] && names[i..][1..] == names[i + 1..];
  }

  lemma JoinEnd(n: Net, k: string, names: seq<string>, policy: string -> Policy, args: seq<string>, j: nat)
    requires k in n.users
    ensures JoinAll(n, k, names[|names|..], policy, args, j) == Some(JoinResult(n, j))
  {
    assert names[|names|..] == [];
  }

  // ---------------------------------------------------------------- SAJOIN and SAPART

  /** What SAJOIN decides for one channel. */
  lemma ForceCases(net: Network, user: User, name: string, p: Policy)
    requires net.Valid() && net.Registered(user)
    ensures Lower(user.nick) in net.state.users
    ensures var n, t, c := net.state, Lower(user.nick), Lower(name);
            ForceOne(n, t, name, p) ==
            if !CheckChan(name) || |name| < 2 || |name| > p.chanlen then n
            else if !p.registered then JoinFree(n, t, name)
            else if c in net.channels && user in net.channels[c].users then n
            else Settle(Enter(OpenChannel(n, name), t, c), t, c, p)
  {
    InTable(net, user);
    TableKeys(net);
    if Lower(name) in net.channels {
      net.NameOf(Lower(name));
      MemberAnswer(net, net.channels[Lower(name)], user);
    }
    hide JoinFree;
    hide Settle;
  }

  /** One channel of SAJOIN: neither modes, keys nor bans are asked. */
  method SajoinOne(net: Network, user: User, name: string, p: Policy)
    requires net.Valid() && net.Registered(user)
    modifies net.repr
    ensures net.Valid() && net.Registered(user) && fresh(net.repr - old(net.repr)) && user.nick == old(user.nick)
    ensures Lower(user.nick) in old(net.state).users && net.state == ForceOne(old(net.state), Lower(user.nick), name, p)
  {
    hide *;
    ForceCases(net, user, name, p);
    if !CheckChan(name) || |name| < 2 || |name| > p.chanlen { return; }
    if !p.registered {
      EnterFree(net, user, name);
    } else {
      if Lower(name) in net.channels {
        if user in net.channels[Lower(name)].users { return; }
      }
      EnterRegistered(net, user, name, p);
    }
  }

  /** SAJOIN, for an IRC operator and a nick that exists. */
  method Sajoin(net: Network, user: User, nick: string, names: seq<string>, policy: string -> Policy)
    requires net.Valid() && net.Registered(user)
    modifies net.repr
    ensures net.Valid() && fresh(net.repr - old(net.repr))
    ensures Step(old(net.state), CForce(old(Lower(user.nick)), Lower(nick), names, policy)) == Some(net.state)
  {
    hide *;
    ghost var n, k := net.state, Lower(user.nick);
    InTable(net, user);
    TableKeys(net);
    RecOper(user);
    ForceStep(n, k, Lower(nick), names, policy);
    if !user.o || Lower(nick) !in net.users { return; }
    net.NickOf(Lower(nick));
    var usr := net.users[Lower(nick)];
    ghost var goal := ForceAll(n, Lower(nick), names, policy);
    var i := 0;
    assert names[0..] == names;
    while i < |names|
      invariant 0 <= i <= |names|
      invariant net.Valid() && net.Registered(usr) && fresh(net.repr - old(net.repr)) && Lower(usr.nick) == Lower(nick)
      invariant Lower(nick) in net.state.users && ForceAll(net.state, Lower(nick), names[i..], policy) == goal
    {
      ForceNext(net.state, Lower(nick), names, i, policy);
      SajoinOne(net, usr, names[i], policy(names[i]));
      InTable(net, usr);
      i := i + 1;
    }
    ForceEnd(net.state, Lower(nick), names, policy);
  }

  lemma ForceStep(n: Net, k: string, t: string, names: seq<string>, policy: string -> Policy)
    requires k in n.users
    ensures Step(n, CForce(k, t, names, policy)) ==
            Some(if n.users[k].o && t in n.users then ForceAll(n, t, names, policy) else n)
  {}

  lemma ForceNext(n: Net, t: string, names: seq<string>, i: nat, policy: string -> Policy)
    requires t in n.users && i < |names|
    ensures var n' := ForceOne(n, t, names[i], policy(names[i]));
            t in n'.users ==> ForceAll(n, t, names[i..], policy) == ForceAll(n', t, names[i + 1..], policy)
  {
    hide ForceOne;
    assert names[i..][0] == names[i] && names[i..][1..] == names[i + 1..];
  }

  lemma ForceEnd(n: Net, t: string, names: seq<string>, policy: string -> Policy)
    requires t in n.users
    ensures ForceAll(n, t, names[|names|..], policy) == n
  {
    assert names[|names|..] == [];
  }

  /** SAPART. `touched`: the answer to the user has read the name of a channel just deleted. */
  method Sapart(net: Network, user: User, nick: string, channel: string) returns (touched: bool)
    requires net.Valid() && net.Registered(user)
    modifies net.repr
    ensures net.Valid() && net.repr == old(net.repr)
    ensures touched <==> old(user.o) && Lower(nick) in old(net.state).users &&
                         Lower(channel) in old(net.state).channels &&
                         old(net.state).channels[Lower(channel)].body.users == {Lower(nick)}
    ensures Step(old(net.state), CForcePart(old(Lower(user.nick)), Lower(nick), Lower(channel))) == Some(net.state)
  {
    hide *;
    InTable(net, user);
    TableKeys(net);
    RecOper(user);
    PartStep(net.state, Lower(user.nick), Lower(nick), Lower(channel));
    touched := false;
    if !user.o || Lower(nick) !in net.users || Lower(channel) !in net.channels { return; }
    net.NickOf(Lower(nick));
    net.NameOf(Lower(channel));
    MemberAnswer(net, net.channels[Lower(channel)], net.users[Lower(nick)]);
    if net.users[Lower(nick)] in net.channels[Lower(channel)].users {
      touched := net.Part(net.users[Lower(nick)], net.channels[Lower(channel)]);
    }
  }

  lemma PartStep(n: Net, k: string, t: string, c: string)
    requires k in n.users
    ensures Step(n, CForcePart(k, t, c)) == Some(if n.users[k].o then NetState.Part(n, t, c) else n)
    ensures !(t in n.users && c in n.channels && t in n.channels[c].body.users) ==> NetState.Part(n, t, c) == n
  {}
}
