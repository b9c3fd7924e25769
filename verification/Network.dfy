/** The objects behind the state: users and channels that point at each other, and the
    two global tables. Every method that changes them is proved to make exactly the
    corresponding move of `NetState`. */
module Network {
  import opened Text
  import Glob
  import opened ChannelState
  import opened NetState

  // ---------------------------------------------------------------- pointers and keys

  ghost predicate Injective<T>(m: map<string, T>) { forall j, k :: j in m && k in m && m[j] == m[k] ==> j == k }

  /** The keys under which the objects of a pointer set stand in a table. */
  ghost function KeysOf<T>(m: map<string, T>, s: set<T>): set<string> { set k | k in m && m[k] in s }

  lemma KeysAdd<T>(m: map<string, T>, s: set<T>, k: string)
    requires Injective(m) && k in m
    ensures KeysOf(m, s + {m[k]}) == KeysOf(m, s) + {k}
    ensures KeysOf(m, s - {m[k]}) == KeysOf(m, s) - {k}
  {}

  lemma KeysInsert<T>(m: map<string, T>, s: set<T>, k: string, v: T)
    requires k !in m
    ensures KeysOf(m[k := v], s) == KeysOf(m, s) + if v in s then {k} else {}
  {}

  lemma KeysDrop<T>(m: map<string, T>, s: set<T>, k: string)
    requires k in m && m[k] !in s
    ensures KeysOf(m - {k}, s) == KeysOf(m, s)
  {}

  lemma KeysForget<T>(m: map<string, T>, s: set<T>, k: string)
    ensures KeysOf(m - {k}, s) == KeysOf(m, s) - {k}
  {}

  lemma KeysMove<T>(m: map<string, T>, s: set<T>, a: string, b: string)
    requires a in m && b !in m
    ensures KeysOf((m - {a})[b := m[a]], s) == Renamed(KeysOf(m, s), a, b)
  {}

  lemma KeysEmpty<T>(m: map<string, T>, s: set<T>)
    requires s <= m.Values
    ensures KeysOf(m, s) == {} <==> s == {}
  {
    if s != {} {
      var v :| v in s;
      var k :| k in m && m[k] == v;
      assert k in KeysOf(m, s);
    }
  }

  lemma {:induction false} KeysCount<T>(m: map<string, T>, s: set<T>)
    requires Injective(m) && s <= m.Values
    ensures |KeysOf(m, s)| == |s|
  {
    if s == {} {
      assert KeysOf(m, s) == {};
    } else {
      var v :| v in s;
      var k :| k in m && m[k] == v;
      KeysCount(m, s - {v});
      KeysAdd(m, s, k);
    }
  }

  lemma ValuesInsert<T>(m: map<string, T>, k: string, v: T)
    requires k !in m
    ensures m[k := v].Values == m.Values + {v}
  {
    assert k in m[k := v] && m[k := v][k] == v;
    forall x | x in m.Values ensures x in m[k := v].Values {
      var j :| j in m && m[j] == x;
      assert j in m[k := v] && m[k := v][j] == x;
    }
  }

  lemma ValuesDrop<T>(m: map<string, T>, k: string)
    requires Injective(m) && k in m
    ensures (m - {k}).Values == m.Values - {m[k]}
  {
    forall x | x in m.Values && x != m[k] ensures x in (m - {k}).Values {
      var j :| j in m && m[j] == x;
      assert j in m - {k} && (m - {k})[j] == x;
    }
  }

  lemma ValuesMove<T>(m: map<string, T>, a: string, b: string)
    requires a in m && b !in m
    ensures (m - {a})[b := m[a]].Values == m.Values
  {
    var m' := (m - {a})[b := m[a]];
    forall x | x in m.Values ensures x in m'.Values {
      var j :| j in m && m[j] == x;
      var j' := if j == a then b else j;
      assert j' in m' && m'[j'] == x;
    }
  }

  lemma InjectiveMove<T>(m: map<string, T>, a: string, b: string)
    requires Injective(m) && a in m && b !in m
    ensures Injective((m - {a})[b := m[a]])
  {}

  lemma FlagSetChannels(u: UserRec, c: char, on: bool, channels: set<string>)
    ensures FlagSet(u.(channels := channels), c, on) == FlagSet(u, c, on).(channels := channels)
    ensures FlagSet(u, c, on).channels == u.channels && FlagSet(u, c, on).nick == u.nick
  {}

  class User {
    var nick: string
    var ident: string
    var host: string
    var cloak: string
    var vhost: string
    var server: string
    var login: int
    var r: bool
    var z: bool
    var w: bool
    var o: bool
    var bAway: bool
    var mAway: string
    var local: bool
    var channels: set<Channel>

    /** The fields as a record, without the memberships. */
    function Rec(): UserRec
      reads this
    {
      UserRec(nick, ident, host, cloak, vhost, server, login, r, z, w, o,
              if bAway then Some(mAway) else None, local, {})
    }

    /** The object is what a table entry says; its channel pointers lead into `table`. */
    ghost predicate Is(u: UserRec, table: map<string, Channel>)
      reads this
    {
      u == Rec().(channels := KeysOf(table, channels)) && channels <= table.Values
    }

    constructor (u: UserRec)
      ensures Rec() == u.(channels := {}) && channels == {} && nick == u.nick
      ensures forall table :: Is(u.(channels := {}), table)
    {
      nick, ident, host, cloak, vhost, server := u.nick, u.ident, u.host, u.cloak, u.vhost, u.server;
      login, r, z, w, o, local := u.login, u.r, u.z, u.w, u.o, u.local;
      bAway, mAway := u.away.Some?, if u.away.Some? then u.away.value else "";
      channels := {};
    }

    lemma OnItsOwn(table: map<string, Channel>)
      requires channels == {}
      ensures Is(Rec(), table)
    {}

    method InsertChannel(ch: Channel, ghost u: UserRec, ghost table: map<string, Channel>, ghost c: string)
      requires Is(u, table) && Injective(table) && c in table && table[c] == ch
      modifies `channels
      ensures channels == old(channels) + {ch}
      ensures Is(u.(channels := u.channels + {c}), table)
    {
      KeysAdd(table, channels, c);
      channels := channels + {ch};
    }

    method EraseChannel(ch: Channel, ghost u: UserRec, ghost table: map<string, Channel>, ghost c: string)
      requires Is(u, table) && Injective(table) && c in table && table[c] == ch
      modifies `channels
      ensures channels == old(channels) - {ch}
      ensures Is(u.(channels := u.channels - {c}), table)
    {
      KeysAdd(table, channels, c);
      channels := channels - {ch};
    }

    /** The fields that `User::away` sets. */
    method SetAway(away: string, on: bool, ghost u: UserRec, ghost table: map<string, Channel>)
      requires Is(u, table)
      modifies `bAway, `mAway
      ensures Is(u.(away := if on then Some(away) else None), table)
    {
      bAway := on;
      mAway := away;
    }

    /** `User::setMode`. */
    method SetMode(mode: char, option: bool, ghost u: UserRec, ghost table: map<string, Channel>)
      requires Is(u, table)
      modifies `o, `r, `z, `w
      ensures Is(FlagSet(u, mode, option), table)
    {
      hide KeysOf;
      hide FlagSet;
      ghost var rec := Rec();
      Flag(mode, option);
      FlagSetChannels(rec, mode, option, KeysOf(table, channels));
    }

    method Flag(mode: char, option: bool)
      modifies `o, `r, `z, `w
      ensures Rec() == FlagSet(old(Rec()), mode, option)
    {
      if mode == 'o' { o := option; }
      else if mode == 'r' { r := option; }
      else if mode == 'z' { z := option; }
      else if mode == 'w' { w := option; }
    }

    method SetIdentity(ident: string, host: string, cloak: string, ghost u: UserRec, ghost table: map<string, Channel>)
      requires Is(u, table)
      modifies `ident, `host, `cloak
      ensures Is(u.(ident := ident, host := host, cloak := cloak), table)
    {
      this.ident, this.host, this.cloak := ident, host, cloak;
    }

    method SetVhost(vhost: string, ghost u: UserRec, ghost table: map<string, Channel>)
      requires Is(u, table)
      modifies `vhost
      ensures Is(u.(vhost := vhost), table)
    {
      this.vhost := vhost;
    }

    method SetNick(newnick: string, ghost u: UserRec, ghost table: map<string, Channel>)
      requires Is(u, table)
      modifies `nick
      ensures nick == newnick && Is(u.(nick := newnick), table)
    {
      nick := newnick;
    }

    lemma TableGrows(u: UserRec, table: map<string, Channel>, c: string, ch: Channel)
      requires Is(u, table) && c !in table && ch !in channels
      ensures Is(u, table[c := ch])
    {
      KeysInsert(table, channels, c, ch);
      ValuesInsert(table, c, ch);
    }

    lemma TableShrinks(u: UserRec, table: map<string, Channel>, c: string)
      requires Is(u, table) && Injective(table) && c in table && c !in u.channels
      ensures Is(u, table - {c})
    {
      KeysDrop(table, channels, c);
      ValuesDrop(table, c);
    }
  }

  class Channel {
    const name: string
    var users: set<User>
    var operators: set<User>
    var halfoperators: set<User>
    var voices: set<User>
    var bans: seq<Ban>
    var pbans: seq<Ban>

    constructor (chan: string)
      ensures name == chan && users == {}
      ensures forall table :: Is(ChanRec(chan, EMPTY), table)
    {
      name := chan;
      users, operators, halfoperators, voices, bans, pbans := {}, {}, {}, {}, [], [];
    }

    /** A rank pointer leads to nobody in `table`. */
    ghost predicate Orphaned(table: map<string, User>)
      reads this
    {
      !(operators + halfoperators + voices <= table.Values)
    }

    /** The object is what a table entry says; members lead into `table`. A rank pointer that
        does not stands under no key, and the entry says that there is one. */
    ghost predicate Is(c: ChanRec, table: map<string, User>)
      reads this
    {
      c == ChanRec(name, Chan(KeysOf(table, users), KeysOf(table, operators), KeysOf(table, halfoperators),
                              KeysOf(table, voices), bans, pbans, Orphaned(table))) &&
      users <= table.Values
    }

    predicate Holds(user: User, r: Rank)
      reads this
    {
      match r case Op => user in operators case Half => user in halfoperators case Voice => user in voices
    }

    /** The pointer sets answer as the state does. */
    lemma Answers(c: ChanRec, table: map<string, User>, k: string)
      requires Is(c, table) && k in table
      ensures name == c.name && bans == c.body.bans && pbans == c.body.pbans
      ensures table[k] in users <==> k in c.body.users
      ensures forall r :: Holds(table[k], r) <==> k in c.body.Holders(r)
      ensures users == {} <==> c.body.users == {}
    {
      KeysEmpty(table, users);
    }

    method InsertUser(user: User, ghost c: ChanRec, ghost table: map<string, User>, ghost k: string)
      requires Is(c, table) && Injective(table) && k in table && table[k] == user
      modifies `users
      ensures users == old(users) + {user}
      ensures Is(c.(body := c.body.(users := c.body.users + {k})), table)
    {
      KeysAdd(table, users, k);
      users := users + {user};
    }

    method RemoveUser(user: User, ghost c: ChanRec, ghost table: map<string, User>, ghost k: string)
      requires Is(c, table) && Injective(table) && k in table && table[k] == user
      modifies this
      ensures users == old(users) - {user} && forall r :: !Holds(user, r)
      ensures Is(c.(body := c.body.Without(k)), table)
    {
      assert user in table.Values;
      KeysAdd(table, users, k);
      KeysAdd(table, operators, k);
      KeysAdd(table, halfoperators, k);
      KeysAdd(table, voices, k);
      users := users - {user};
      operators := operators - {user};
      halfoperators := halfoperators - {user};
      voices := voices - {user};
    }

    /** `GiveOperator`, `GiveHalfOperator`, `GiveVoice`. */
    method Give(user: User, r: Rank, ghost c: ChanRec, ghost table: map<string, User>, ghost k: string)
      requires Is(c, table) && Injective(table) && k in table && table[k] == user
      modifies this
      ensures users == old(users)
      ensures Is(c.(body := c.body.With(r, c.body.Holders(r) + {k})), table)
    {
      assert user in table.Values;
      match r {
        case Op => KeysAdd(table, operators, k); operators := operators + {user};
        case Half => KeysAdd(table, halfoperators, k); halfoperators := halfoperators + {user};
        case Voice => KeysAdd(table, voices, k); voices := voices + {user};
      }
    }

    /** `RemoveOperator`, `RemoveHalfOperator`, `RemoveVoice`. */
    method Take(user: User, r: Rank, ghost c: ChanRec, ghost table: map<string, User>, ghost k: string)
      requires Is(c, table) && Injective(table) && k in table && table[k] == user
      modifies this
      ensures users == old(users)
      ensures Is(c.(body := c.body.With(r, c.body.Holders(r) - {k})), table)
    {
      assert user in table.Values;
      match r {
        case Op => KeysAdd(table, operators, k); operators := operators - {user};
        case Half => KeysAdd(table, halfoperators, k); halfoperators := halfoperators - {user};
        case Voice => KeysAdd(table, voices, k); voices := voices - {user};
      }
    }

    method SetBans(bans: seq<Ban>, pbans: seq<Ban>, ghost c: ChanRec, ghost table: map<string, User>)
      requires Is(c, table)
      modifies `bans, `pbans
      ensures Is(c.(body := c.body.(bans := bans, pbans := pbans)), table)
    {
      this.bans, this.pbans := bans, pbans;
    }

    /** `Channel::IsBan`, scanning both lists. */
    method IsBan(mask: string, ghost c: ChanRec, ghost table: map<string, User>) returns (v: Glob.Verdict)
      requires Is(c, table)
      ensures v == ChannelState.IsBan(c.body, mask)
    {
      KeysEmpty(table, users);
      if users == {} { return Glob.No; }
      v := ScanLoop(bans, Lower(mask));
      if v == Glob.No { v := ScanLoop(pbans, Lower(mask)); }
    }

    /** The entry once `u` has entered the table under `k`: wherever the address of `u` stands in
        a rank set already, `u` has that rank. */
    ghost function Recalled(c: ChanRec, table: map<string, User>, k: string, u: User): (r: ChanRec)
      reads this
      ensures r.name == c.name && r.body.users == c.body.users && r.body.bans == c.body.bans
      ensures r.body.pbans == c.body.pbans
      ensures forall q :: r.body.Holders(q) == c.body.Holders(q) + if Holds(u, q) then {k} else {}
    {
      c.(body := c.body.(ops := c.body.ops + if Holds(u, Op) then {k} else {},
                         halfs := c.body.halfs + if Holds(u, Half) then {k} else {},
                         voices := c.body.voices + if Holds(u, Voice) then {k} else {},
                         orphaned := Orphaned(table[k := u])))
    }

    lemma TableGrows(c: ChanRec, table: map<string, User>, k: string, u: User)
      requires Is(c, table) && k !in table && u !in users
      ensures Is(Recalled(c, table, k, u), table[k := u])
      ensures (forall r :: !Holds(u, r)) ==> Recalled(c, table, k, u) == c
    {
      KeysInsert(table, users, k, u);
      KeysInsert(table, operators, k, u);
      KeysInsert(table, halfoperators, k, u);
      KeysInsert(table, voices, k, u);
      ValuesInsert(table, k, u);
      if forall r :: !Holds(u, r) { assert !Holds(u, Op) && !Holds(u, Half) && !Holds(u, Voice); }
    }

    lemma TableShrinks(c: ChanRec, table: map<string, User>, k: string)
      requires Is(c, table) && Injective(table) && k in table && k !in c.body.users
      ensures Is(c.(body := c.body.Deserted(k)), table - {k})
    {
      KeysForget(table, users, k);
      KeysForget(table, operators, k);
      KeysForget(table, halfoperators, k);
      KeysForget(table, voices, k);
      ValuesDrop(table, k);
    }

    lemma TableMoves(c: ChanRec, table: map<string, User>, a: string, b: string)
      requires Is(c, table) && a in table && b !in table
      ensures Is(c.(body := RenamedChan(c.body, a, b)), (table - {a})[b := table[a]])
    {
      KeysMove(table, users, a, b);
      KeysMove(table, operators, a, b);
      KeysMove(table, halfoperators, a, b);
      KeysMove(table, voices, a, b);
      ValuesMove(table, a, b);
    }
  }

  method ScanLoop(list: seq<Ban>, mask: string) returns (v: Glob.Verdict)
    ensures v == BanScan(list, mask)
  {
    v := Glob.No;
    var i := 0;
    while i < |list|
      invariant 0 <= i <= |list|
      invariant v == Glob.No && BanScan(list, mask) == BanScan(list[i..], mask)
    {
      assert list[i..][0] == list[i] && list[i..][1..] == list[i + 1..];
      v := Glob.Match(Lower(list[i].mask), mask);
      if v != Glob.No { return; }
      i := i + 1;
    }
    assert list[|list|..] == [];
  }

  class Network {
    var users: map<string, User>
    var channels: map<string, Channel>
    ghost var state: Net
    ghost var repr: set<object>

    ghost predicate Registered(u: User)
      reads `users, u`nick
    {
      Lower(u.nick) in users && users[Lower(u.nick)] == u
    }

    ghost predicate Listed(c: Channel)
      reads `channels
    {
      Lower(c.name) in channels && channels[Lower(c.name)] == c
    }

    ghost predicate Tables()
      reads `users, `channels, `repr
    {
      this in repr && Injective(users) && Injective(channels) &&
      (forall k :: k in users ==> users[k] in repr) && (forall c :: c in channels ==> channels[c] in repr)
    }

    /** The objects of the two tables are what `n` says, and point only at each other. */
    ghost predicate Shows(n: Net)
      requires Tables()
      reads this, repr
    {
      users.Keys == n.users.Keys && channels.Keys == n.channels.Keys &&
      (forall k :: k in users ==> users[k].Is(n.users[k], channels)) &&
      (forall c :: c in channels ==> channels[c].Is(n.channels[c], users))
    }

    ghost predicate Valid()
      reads this, repr
    {
      Tables() && Coherent(state) && Shows(state)
    }

    constructor ()
      ensures Valid() && fresh(repr) && state == NOTHING
    {
      users, channels := map[], map[];
      state, repr := NOTHING, {this};
      new;
      assert forall k, c :: !Joined(state, k, c) && !Member(state, k, c);
    }

    lemma NickOf(k: string)
      requires Valid() && k in users
      ensures Lower(users[k].nick) == k && users[k].nick == state.users[k].nick && Registered(users[k])
      ensures users[k].Rec() == state.users[k].(channels := {})
      ensures |users[k].channels| == |state.users[k].channels|
    {
      KeysCount(channels, users[k].channels);
    }

    lemma NameOf(c: string)
      requires Valid() && c in channels
      ensures Lower(channels[c].name) == c && channels[c].name == state.channels[c].name && Listed(channels[c])
      ensures channels[c].users == {} <==> state.channels[c].body.users == {}
    {
      KeysEmpty(users, channels[c].users);
    }

    lemma BansOf(c: string)
      requires Valid() && c in channels
      ensures channels[c].bans == state.channels[c].body.bans && channels[c].pbans == state.channels[c].body.pbans
    {}

    /** What `Valid` says of each object, its definition aside. */
    lemma Unpacked()
      requires Valid()
      ensures Tables() && Coherent(state)
      ensures users.Keys == state.users.Keys && channels.Keys == state.channels.Keys
      ensures forall k :: k in users ==> users[k] in repr && users[k].Is(state.users[k], channels)
      ensures forall c :: c in channels ==> channels[c] in repr && channels[c].Is(state.channels[c], users)
    {}

    lemma Packed()
      requires Tables() && Coherent(state)
      requires users.Keys == state.users.Keys && channels.Keys == state.channels.Keys
      requires forall k :: k in users ==> users[k].Is(state.users[k], channels)
      requires forall c :: c in channels ==> channels[c].Is(state.channels[c], users)
      ensures Valid()
    {}

    /** Each object stands under one key, which is its own name. */
    lemma OnlyAt(user: User, chan: Channel)
      requires Valid() && Registered(user) && Listed(chan)
      ensures Injective(users) && Injective(channels) && user in repr && chan in repr && this in repr
      ensures Lower(user.nick) in users && users[Lower(user.nick)] == user
      ensures Lower(chan.name) in channels && channels[Lower(chan.name)] == chan
      ensures forall k :: k in users && users[k] == user ==> k == Lower(user.nick)
      ensures forall c :: c in channels && channels[c] == chan ==> c == Lower(chan.name)
    {}

    // ---------------------------------------------------------------- elementary moves

    /** `channels.insert` and `InsertUser`: both ends of a membership. */
    method Link(user: User, chan: Channel)
      requires Valid() && Registered(user) && Listed(chan)
      modifies this`state, user`channels, chan`users
      ensures Valid() && chan.users == old(chan.users) + {user}
      ensures state == Enter(old(state), Lower(user.nick), Lower(chan.name))
    {
      hide User.Is;
      hide Channel.Is;
      hide Coherent;
      hide Keeps;
      hide Milder;
      ghost var k, c := Lower(user.nick), Lower(chan.name);
      EnterKeeps(state, k, c);
      StaysCoherent(state, Enter(state, k, c));
      user.InsertChannel(chan, state.users[k], channels, c);
      chan.InsertUser(user, state.channels[c], users, k);
      state := Enter(state, k, c);
      assert Tables() && users.Keys == state.users.Keys;
      assert users[k].Is(state.users[k], channels) && channels[c].Is(state.channels[c], users);
    }

    /** `channels.erase` and `RemoveUser`: both ends, and every rank. */
    method Unlink(user: User, chan: Channel)
      requires Valid() && Registered(user) && Listed(chan)
      modifies this`state, user`channels, chan
      ensures Valid() && user.channels == old(user.channels) - {chan}
      ensures chan.users == old(chan.users) - {user} && forall r :: !chan.Holds(user, r)
      ensures state == Leave(old(state), Lower(user.nick), Lower(chan.name))
    {
      hide *;
      ghost var k, c := Lower(user.nick), Lower(chan.name);
      Unpacked();
      OnlyAt(user, chan);
      LeaveKeeps(state, k, c);
      StaysCoherent(state, Leave(state, k, c));
      LeaveShape(state, k, c);
      chan.RemoveUser(user, state.channels[c], users, k);
      user.EraseChannel(chan, state.users[k], channels, c);
      state := Leave(state, k, c);
      Packed();
    }

    lemma LeaveShape(n: Net, k: string, c: string)
      requires k in n.users && c in n.channels
      ensures var n', u := Leave(n, k, c), n.users[k];
              n'.users.Keys == n.users.Keys && n'.channels.Keys == n.channels.Keys &&
              (forall j :: j in n.users && j != k ==> n'.users[j] == n.users[j]) &&
              (forall d :: d in n.channels && d != c ==> n'.channels[d] == n.channels[d]) &&
              n'.users[k] == u.(channels := u.channels - {c}) &&
              n'.channels[c] == n.channels[c].(body := n.channels[c].body.Without(k))
    {}

    lemma NobodyIn(c: string)
      requires Valid() && c in channels && state.channels[c].body.users == {}
      ensures forall k :: k in users ==> c !in state.users[k].channels
    {
      forall k | k in users ensures c !in state.users[k].channels {
        assert Joined(state, k, c) <==> Member(state, k, c);
      }
    }

    /** The end of `part`, `quit` and SPART: an empty channel leaves the table. */
    method EraseIfEmpty(chan: Channel) returns (gone: bool)
      requires Valid() && Listed(chan)
      modifies this`channels, this`state
      ensures Valid() && gone == (chan.users == {})
      ensures channels == if gone then old(channels) - {Lower(chan.name)} else old(channels)
      ensures state == Reap(old(state), Lower(chan.name))
    {
      hide User.Is;
      hide Channel.Is;
      hide Coherent;
      hide Keeps;
      hide Milder;
      ghost var c := Lower(chan.name);
      NameOf(c);
      gone := chan.users == {};
      if gone { Erase(Lower(chan.name)); }
    }

    method Erase(c: string)
      requires Valid() && c in channels && state.channels[c].body.users == {}
      modifies this`channels, this`state
      ensures Valid() && channels == old(channels) - {c}
      ensures state == old(state).(channels := old(state).channels - {c})
    {
      hide User.Is;
      hide Channel.Is;
      hide Coherent;
      hide Keeps;
      hide Milder;
      ReapKeeps(state, c);
      StaysCoherent(state, Reap(state, c));
      NobodyIn(c);
      forall k | k in users ensures users[k].Is(state.users[k], channels - {c}) {
        users[k].TableShrinks(state.users[k], channels, c);
      }
      channels := channels - {c};
      state := Reap(state, c);
    }

    /** `new Channel` and its insertion, for a name not in the table. */
    method Create(name: string) returns (chan: Channel)
      requires Valid() && Lower(name) !in channels
      modifies this`channels, this`state, this`repr
      ensures Valid() && repr == old(repr) + {chan} && fresh(chan)
      ensures chan.name == name && Listed(chan) && chan.users == {}
      ensures state == OpenChannel(old(state), name)
    {
      hide User.Is;
      hide Channel.Is;
      hide Coherent;
      hide Keeps;
      hide Milder;
      hide Lower;
      ghost var c := Lower(name);
      OpenKeeps(state, name);
      StaysCoherent(state, OpenChannel(state, name));
      chan := new Channel(name);
      forall k | k in users ensures users[k].Is(state.users[k], channels[c := chan]) {
        users[k].TableGrows(state.users[k], channels, c, chan);
      }
      channels := channels[Lower(name) := chan];
      repr := repr + {chan};
      state := OpenChannel(state, name);
      assert Tables() && users.Keys == state.users.Keys && channels.Keys == state.channels.Keys;
      assert channels[c].Is(state.channels[c], users);
    }

    /** A rank given or taken, whether or not the user is a member. */
    method SetRank(chan: Channel, user: User, r: Rank, on: bool)
      requires Valid() && Registered(user) && Listed(chan)
      modifies this`state, chan
      ensures Valid() && chan.users == old(chan.users)
      ensures state == RankMove(old(state), Lower(user.nick), Lower(chan.name), r, on)
    {
      hide *;
      ghost var c, k := Lower(chan.name), Lower(user.nick);
      Unpacked();
      OnlyAt(user, chan);
      RankMoveCoherent(state, k, c, r, on);
      RankMoveShape(state, k, c, r, on);
      if on { chan.Give(user, r, state.channels[c], users, k); }
      else { chan.Take(user, r, state.channels[c], users, k); }
      state := RankMove(state, k, c, r, on);
      Packed();
    }

    lemma RankMoveShape(n: Net, k: string, c: string, r: Rank, on: bool)
      requires c in n.channels
      ensures var n', rec := RankMove(n, k, c, r, on), n.channels[c];
              n'.users == n.users && n'.channels.Keys == n.channels.Keys &&
              (forall d :: d in n.channels && d != c ==> n'.channels[d] == n.channels[d]) &&
              n'.channels[c] == rec.(body := rec.body.With(r, if on then rec.body.Holders(r) + {k}
                                                                else rec.body.Holders(r) - {k}))
    {}

    lemma RankMoveCoherent(n: Net, k: string, c: string, r: Rank, on: bool)
      requires Coherent(n) && k in n.users && c in n.channels
      ensures Coherent(RankMove(n, k, c, r, on))
    {
      hide Coherent;
      hide RankMove;
      RankMoveExact(n, k, c, r, on);
    }

    method SetBans(chan: Channel, bans: seq<Ban>, pbans: seq<Ban>)
      requires Valid() && Listed(chan)
      modifies this`state, chan`bans, chan`pbans
      ensures Valid()
      ensures var c := Lower(chan.name);
              state == WithBody(old(state), c, old(state).channels[c].body.(bans := bans, pbans := pbans))
    {
      hide User.Is;
      hide Channel.Is;
      hide Coherent;
      hide Keeps;
      hide Milder;
      ghost var c := Lower(chan.name);
      ghost var ch := state.channels[c].body.(bans := bans, pbans := pbans);
      NameOf(c);
      KnownAt(c);
      BodyKeeps(state, c, ch);
      chan.SetBans(bans, pbans, state.channels[c], users);
      state := WithBody(state, c, ch);
    }

    lemma KnownAt(c: string)
      requires Valid() && c in channels
      ensures state.channels[c].body.Known(state.users.Keys)
    {}

    // ---------------------------------------------------------------- the nick table

    /** The user holds no rank anywhere. */
    ghost predicate Unranked(user: User)
      requires Tables()
      reads this, repr
    {
      forall c, r :: c in channels ==> !channels[c].Holds(user, r)
    }

    lemma NotAMember(user: User, c: string)
      requires Valid() && user !in repr && c in channels
      ensures user !in channels[c].users
    {
      assert forall v :: v in users.Values ==> v in repr;
      assert channels[c].users <= users.Values;
    }

    /** The state once the user has entered: its address may stand in rank sets already. */
    ghost function Entered(user: User): Net
      requires Valid()
      reads this, repr, user
    {
      Net(state.users[Lower(user.nick) := user.Rec()],
          map c | c in channels :: channels[c].Recalled(state.channels[c], users, Lower(user.nick), user))
    }

    lemma EnteredCoherent(user: User)
      requires Valid() && Lower(user.nick) !in users
      ensures Coherent(Entered(user))
    {
      hide User.Is;
      hide Channel.Is;
      hide Coherent;
      forall c | c in channels ensures Entered(user).channels[c].body.Known(users.Keys + {Lower(user.nick)}) {
        KnownAt(c);
        RecalledKnown(channels[c], state.channels[c], users, Lower(user.nick), user);
      }
      hide Channel.Recalled;
      EntryCoherent(state, Entered(user), Lower(user.nick), user.Rec());
    }

    lemma RecalledKnown(chan: Channel, c: ChanRec, table: map<string, User>, k: string, user: User)
      requires c.body.Known(table.Keys)
      ensures chan.Recalled(c, table, k, user).body.Known(table.Keys + {k})
    {}

    lemma EntryCoherent(n: Net, n': Net, k: string, u: UserRec)
      requires Coherent(n) && k !in n.users && Lower(u.nick) == k && u.channels == {}
      requires n'.users == n.users[k := u] && n'.channels.Keys == n.channels.Keys
      requires forall c :: c in n.channels ==>
                 n'.channels[c].name == n.channels[c].name && n'.channels[c].body.Known(n.users.Keys + {k}) &&
                 n'.channels[c].body.users == n.channels[c].body.users
      ensures Coherent(n')
    {
      forall x, d ensures Joined(n', x, d) <==> Member(n', x, d) { assert Joined(n, x, d) <==> Member(n, x, d); }
      assert n'.users.Keys == n.users.Keys + {k};
    }

    /** The objects with the user among them show the state entered, which is the plain one where
        no rank set holds the user's address. */
    lemma EnteredShown(user: User)
      requires Valid() && Lower(user.nick) !in users && user !in repr && user.channels == {}
      ensures user.Is(user.Rec(), channels) && Injective(users[Lower(user.nick) := user])
      ensures forall c :: c in channels ==>
                channels[c].Is(Entered(user).channels[c], users[Lower(user.nick) := user])
      ensures Unranked(user) ==> Entered(user) == NetState.AddUser(state, user.Rec())
    {
      hide User.Is;
      hide Channel.Is;
      hide Coherent;
      hide Channel.Recalled;
      user.OnItsOwn(channels);
      ghost var n', k := Entered(user), Lower(user.nick);
      forall c | c in channels
        ensures channels[c].Is(n'.channels[c], users[k := user])
        ensures Unranked(user) ==> n'.channels[c] == state.channels[c]
      {
        NotAMember(user, c);
        channels[c].TableGrows(state.channels[c], users, k, user);
      }
      if Unranked(user) { assert n'.channels == state.channels; }
    }

    /** `User::AddUser`, for a user that has joined nothing. */
    method AddUser(user: User) returns (done: bool)
      requires Valid() && user !in repr && user.channels == {}
      modifies this`users, this`state, this`repr
      ensures Valid() && repr == old(repr) + (if done then {user} else {})
      ensures done <==> Lower(user.nick) !in old(users)
      ensures state == if done then old(Entered(user)) else old(state)
      ensures old(Unranked(user)) ==> state == NetState.AddUser(old(state), user.Rec())
    {
      hide User.Is;
      hide Channel.Is;
      hide Coherent;
      hide Unranked;
      hide Channel.Recalled;
      hide Lower;
      if Lower(user.nick) in users { return false; }
      EnteredCoherent(user);
      EnteredShown(user);
      ghost var n' := Entered(user);
      users := users[Lower(user.nick) := user];
      repr := repr + {user};
      state := n';
      done := true;
      assert Tables() && users.Keys == state.users.Keys && channels.Keys == state.channels.Keys;
    }

    /** The nick is changed already; moving the key completes the rename. */
    method MoveKey(ghost n: Net, a: string, newnick: string)
      requires Tables() && Coherent(n) && users.Keys == n.users.Keys && channels.Keys == n.channels.Keys
      requires a in users && Lower(newnick) !in users
      requires forall k :: k in users ==>
                 users[k].Is(if k == a then n.users[a].(nick := newnick) else n.users[k], channels)
      requires forall c :: c in channels ==> channels[c].Is(n.channels[c], users)
      modifies this`users, this`state
      ensures Valid() && state == Rekey(n, a, newnick)
      ensures users == (old(users) - {a})[Lower(newnick) := old(users)[a]]
    {
      hide User.Is;
      hide Channel.Is;
      hide Coherent;
      hide Keeps;
      hide Milder;
      hide RenamedChan;
      hide Injective;
      hide Lower;
      var b, tmp := Lower(newnick), users[a];
      ghost var table := (users - {a})[b := tmp];
      RekeyKeeps(n, a, newnick);
      StaysCoherent(n, Rekey(n, a, newnick));
      InjectiveMove(users, a, b);
      forall c | c in channels
        ensures channels[c].Is(n.channels[c].(body := RenamedChan(n.channels[c].body, a, b)), table)
      {
        channels[c].TableMoves(n.channels[c], users, a, b);
      }
      users := users[b := tmp];
      users := users - {a};
      assert users == table;
      state := Rekey(n, a, newnick);
    }

    /** `User::ChangeNickName`. */
    method ChangeNickName(oldnick: string, newnick: string) returns (done: bool)
      requires Valid()
      modifies this`users, this`state, users.Values`nick
      ensures Valid()
      ensures done <==> Lower(newnick) !in old(users) && Lower(oldnick) in old(users)
      ensures done ==> old(users)[Lower(oldnick)].nick == newnick && Registered(old(users)[Lower(oldnick)])
      ensures !done ==> users == old(users) && forall u :: u in users.Values ==> u.nick == old(u.nick)
      ensures state == NetState.ChangeNickName(old(state), oldnick, newnick)
    {
      if Lower(newnick) in users || Lower(oldnick) !in users { return false; }
      hide User.Is;
      hide Channel.Is;
      hide Coherent;
      hide Keeps;
      hide Milder;
      var tmp := users[Lower(oldnick)];
      tmp.SetNick(newnick, state.users[Lower(oldnick)], channels);
      MoveKey(state, Lower(oldnick), newnick);
      done := true;
    }

    /** Fields of one user may change: the new state is coherent and differs in that user only. */
    lemma Amendable(user: User, u: UserRec)
      requires Valid() && Registered(user)
      requires var k := Lower(user.nick); k in state.users ==>
                 u.channels == state.users[k].channels && (u.nick == state.users[k].nick || Lower(u.nick) == k)
      ensures Tables() && users.Keys == state.users.Keys && channels.Keys == state.channels.Keys && this in repr
      ensures Lower(user.nick) in users && users[Lower(user.nick)] == user && user in repr
      ensures forall k :: k in users ==> users[k].Is(state.users[k], channels)
      ensures forall c :: c in channels ==> channels[c].Is(state.channels[c], users)
      ensures forall k :: k in users && users[k] == user ==> k == Lower(user.nick)
      ensures var k := Lower(user.nick); var n' := Amend(state, k, u);
              Coherent(n') && n'.users == state.users[k := u] && n'.channels == state.channels &&
              (u == state.users[k].(away := u.away) ==> n' == AwayMove(state, k, u.away)) &&
              (u == state.users[k].(nick := u.nick) && Lower(u.nick) == k ==> n' == NetState.NickMove(state, k, u.nick))
    {
      hide User.Is;
      hide Channel.Is;
      hide Coherent;
      hide Keeps;
      hide Milder;
      ghost var k := Lower(user.nick);
      AmendKeeps(state, k, u);
      StaysCoherent(state, Amend(state, k, u));
    }

    /** A change of case: the nick changes under the same key. */
    method Recase(user: User, newnick: string)
      requires Valid() && Registered(user) && Lower(newnick) == Lower(user.nick)
      modifies this`state, user`nick
      ensures Valid() && user.nick == newnick
      ensures state == NetState.NickMove(old(state), Lower(newnick), newnick)
    {
      hide *;
      InTables(user);
      ghost var k := Lower(newnick);
      ghost var u := state.users[k].(nick := newnick);
      Amendable(user, u);
      user.SetNick(newnick, state.users[k], channels);
      state := Amend(state, k, u);
      Packed();
    }

    /** The nick and its key, as `cmdNick` changes them for a user already registered. */
    method NickMove(user: User, newnick: string)
      requires Valid() && Registered(user)
      modifies this`users, this`state, users.Values`nick
      ensures Valid() && Registered(user)
      ensures Lower(newnick) == old(Lower(user.nick)) || Lower(newnick) !in old(users) ==> user.nick == newnick
      ensures state == NetState.NickMove(old(state), old(Lower(user.nick)), newnick)
    {
      hide User.Is;
      hide Channel.Is;
      hide Coherent;
      hide Keeps;
      hide Milder;
      NickOf(Lower(user.nick));
      if Lower(newnick) == Lower(user.nick) {
        Recase(user, newnick);
      } else {
        var done := ChangeNickName(user.nick, newnick);
      }
    }

    /** `User::away` on the two away fields. */
    method SetAway(user: User, away: string, on: bool)
      requires Valid() && Registered(user)
      modifies this`state, user`bAway, user`mAway
      ensures Valid()
      ensures var k := Lower(user.nick);
              state == AwayMove(old(state), k, if on then Some(away) else None)
    {
      hide *;
      InTables(user);
      ghost var k := Lower(user.nick);
      ghost var u := state.users[k].(away := if on then Some(away) else None);
      Amendable(user, u);
      user.SetAway(away, on, state.users[k], channels);
      state := Amend(state, k, u);
      Packed();
    }

    /** `User::setMode`. */
    method SetMode(user: User, mode: char, option: bool)
      requires Valid() && Registered(user)
      modifies this`state, user`o, user`r, user`z, user`w
      ensures Valid()
      ensures var k := Lower(user.nick);
              state == Amend(old(state), k, FlagSet(old(state).users[k], mode, option))
    {
      hide *;
      InTables(user);
      ghost var k := Lower(user.nick);
      ghost var u := FlagSet(state.users[k], mode, option);
      FlagSetChannels(state.users[k], mode, option, {});
      Amendable(user, u);
      user.SetMode(mode, option, state.users[k], channels);
      state := Amend(state, k, u);
      Packed();
    }

    /** The identity fields, as SUSER and WEBIRC set them. */
    method SetIdentity(user: User, ident: string, host: string, cloak: string)
      requires Valid() && Registered(user)
      modifies this`state, user`ident, user`host, user`cloak
      ensures Valid()
      ensures var k := Lower(user.nick);
              state == Amend(old(state), k, old(state).users[k].(ident := ident, host := host, cloak := cloak))
    {
      hide *;
      InTables(user);
      ghost var k := Lower(user.nick);
      ghost var u := state.users[k].(ident := ident, host := host, cloak := cloak);
      Amendable(user, u);
      user.SetIdentity(ident, host, cloak, state.users[k], channels);
      state := Amend(state, k, u);
      Packed();
    }

    /** The virtual host, as `Cycle` sets it. */
    method SetVhost(user: User, vhost: string)
      requires Valid() && Registered(user)
      modifies this`state, user`vhost
      ensures Valid()
      ensures var k := Lower(user.nick); state == Amend(old(state), k, old(state).users[k].(vhost := vhost))
    {
      hide *;
      InTables(user);
      ghost var k := Lower(user.nick);
      ghost var u := state.users[k].(vhost := vhost);
      Amendable(user, u);
      user.SetVhost(vhost, state.users[k], channels);
      state := Amend(state, k, u);
      Packed();
    }

    // ---------------------------------------------------------------- joining and leaving

    /** `Channel::join` and `User::SJOIN` on a new or existing channel. */
    method Join(user: User, name: string) returns (chan: Channel)
      requires Valid() && Registered(user)
      modifies repr
      ensures Valid() && fresh(repr - old(repr)) && users == old(users) && user.nick == old(user.nick)
      ensures Listed(chan) && Lower(chan.name) == Lower(name) && user in chan.users && chan in repr
      ensures Registered(user) && user in repr && this in repr && Lower(name) in state.channels
      ensures state == Enter(OpenChannel(old(state), name), Lower(user.nick), Lower(name))
    {
      hide User.Is;
      hide Channel.Is;
      hide Coherent;
      hide Keeps;
      hide Milder;
      hide NetState.Enter;
      if Lower(name) in channels {
        chan := channels[Lower(name)];
        NameOf(Lower(name));
      } else {
        chan := Create(name);
      }
      EnterChannels(state, Lower(user.nick), Lower(name));
      Link(user, chan);
    }

    /** `Channel::part` and `User::SPART`, for a member. */
    method Part(user: User, chan: Channel) returns (gone: bool)
      requires Valid() && Registered(user) && Listed(chan) && user in chan.users
      modifies repr
      ensures Valid() && repr == old(repr) && users == old(users)
      ensures Lower(chan.name) in old(state).channels
      ensures gone <==> old(state).channels[Lower(chan.name)].body.users == {old(Lower(user.nick))}
      ensures state == NetState.Part(old(state), old(Lower(user.nick)), Lower(chan.name))
    {
      hide User.Is;
      hide Channel.Is;
      hide Coherent;
      hide Keeps;
      hide Milder;
      chan.Answers(state.channels[Lower(chan.name)], users, Lower(user.nick));
      assert Joined(state, Lower(user.nick), Lower(chan.name)) <==> Member(state, Lower(user.nick), Lower(chan.name))
        by { LinkedNow(); }
      Alone(user, chan);
      Unlink(user, chan);
      gone := EraseIfEmpty(chan);
    }

    lemma LinkedNow()
      requires Valid()
      ensures Linked(state)
    {}

    /** A channel pointer of a user leads to a listed channel that points back. */
    lemma InChannel(user: User, chan: Channel)
      requires Valid() && Registered(user) && chan in user.channels
      ensures Listed(chan) && chan in repr && user in repr && this in repr && user in chan.users
      ensures Lower(chan.name) in channels && channels[Lower(chan.name)] == chan
      ensures Lower(user.nick) in state.users && Lower(chan.name) in state.users[Lower(user.nick)].channels
    {
      assert chan in channels.Values;
      ghost var c :| c in channels && channels[c] == chan;
      NameOf(c);
      assert Joined(state, Lower(user.nick), c) <==> Member(state, Lower(user.nick), c);
      chan.Answers(state.channels[c], users, Lower(user.nick));
    }

    lemma NoChannels(user: User)
      requires Valid() && Registered(user)
      ensures Lower(user.nick) in state.users
      ensures user.channels == {} <==> state.users[Lower(user.nick)].channels == {}
    {
      KeysEmpty(channels, user.channels);
    }

    lemma NotInAny(k: string)
      requires Valid() && k in users && state.users[k].channels == {}
      ensures Coherent(Forgotten(state, k))
      ensures Injective(users)
      ensures forall c :: c in channels ==> k !in state.channels[c].body.users
    {
      ghost var n' := Forgotten(state, k);
      forall x, d ensures Joined(n', x, d) <==> Member(n', x, d) {
        assert Joined(state, x, d) <==> Member(state, x, d);
        assert Joined(state, k, d) <==> Member(state, k, d);
      }
      forall c | c in channels ensures k !in state.channels[c].body.users {
        assert Joined(state, k, c) <==> Member(state, k, c);
      }
    }

    lemma ForgottenShape(n: Net, k: string)
      ensures var n' := Forgotten(n, k);
              n'.users == n.users - {k} && n'.channels.Keys == n.channels.Keys &&
              forall c :: c in n.channels ==>
                n'.channels[c] == n.channels[c].(body := n.channels[c].body.Deserted(k))
    {}

    lemma InjectiveDrop<T>(m: map<string, T>, k: string)
      requires Injective(m)
      ensures Injective(m - {k})
    {}

    /** The last step of a quit: the nick leaves the table. */
    method DropNick(k: string)
      requires Valid() && k in users && state.users[k].channels == {}
      modifies this`users, this`state
      ensures Valid() && state == Forgotten(old(state), k) && users == old(users) - {k}
    {
      hide *;
      Unpacked();
      NotInAny(k);
      ForgottenShape(state, k);
      forall c | c in channels ensures channels[c].Is(Forgotten(state, k).channels[c], users - {k}) {
        channels[c].TableShrinks(state.channels[c], users, k);
      }
      InjectiveDrop(users, k);
      users := users - {k};
      state := Forgotten(state, k);
      Packed();
    }

    /** `Channel::quit` on one channel of the user. */
    method QuitChannel(user: User, chan: Channel, ghost n: Net, ghost done: set<string>) returns (gone: bool)
      requires Valid() && Registered(user) && chan in user.channels && chan in repr
      requires Lower(user.nick) in n.users && state == Quitting(n, Lower(user.nick), done)
      requires Listed(chan) && Lower(chan.name) in state.users[Lower(user.nick)].channels
      modifies this`channels, this`state, user`channels, chan
      ensures Valid() && user.channels == old(user.channels) - {chan}
      ensures chan.users == old(chan.users) - {user} && forall r :: !chan.Holds(user, r)
      ensures channels == if gone then old(channels) - {Lower(chan.name)} else old(channels)
      ensures gone <==> Lower(chan.name) in n.channels && n.channels[Lower(chan.name)].body.users == {Lower(user.nick)}
      ensures state == Quitting(n, Lower(user.nick), done + {Lower(chan.name)})
    {
      hide *;
      InChannel(user, chan);
      AllKnown();
      QuitStep(n, Lower(user.nick), done, Lower(chan.name));
      Alone(user, chan);
      Unlink(user, chan);
      gone := EraseIfEmpty(chan);
    }

    lemma AllKnown()
      requires Valid()
      ensures users.Keys == state.users.Keys && channels.Keys == state.channels.Keys
    {}

    /** The pointer set shows whether the user is the only member. */
    lemma Alone(user: User, chan: Channel)
      requires Valid() && Registered(user) && Listed(chan)
      requires Lower(chan.name) in state.users[Lower(user.nick)].channels
      ensures Lower(chan.name) in state.channels
      ensures chan.users - {user} == {} <==> state.channels[Lower(chan.name)].body.users == {Lower(user.nick)}
    {
      ghost var c, k := Lower(chan.name), Lower(user.nick);
      assert Joined(state, k, c) <==> Member(state, k, c);
      ghost var keys := state.channels[c].body.users;
      assert keys == KeysOf(users, chan.users) && chan.users <= users.Values;
      KeysAdd(users, chan.users, k);
      KeysEmpty(users, chan.users - {user});
      LeavesNobody(keys, k);
    }

    /** The channels of the table that have the user among their members. */
    ghost function Mine(user: User): set<Channel>
      reads `channels, channels.Values
    {
      set chan | chan in channels.Values && user in chan.users
    }

    /** The ranks of the user, in whatever channel. */
    ghost function Ranks(user: User): iset<(Channel, Rank)>
      reads `channels, channels.Values
    {
      iset chan, r | chan in channels.Values && chan.Holds(user, r) :: (chan, r)
    }

    /** The user's ranks are as they were in a channel it is still in or never was, and gone in
        one that it has left. */
    ghost predicate Kept(user: User, chan: Channel, mine: set<Channel>, ranks: iset<(Channel, Rank)>)
      reads chan
    {
      (user in chan.users ==> chan in mine) &&
      forall r :: chan.Holds(user, r) <==> (chan, r) in ranks && (user in chan.users <==> chan in mine)
    }

    lemma AllKept(user: User)
      ensures forall c :: c in channels ==> Kept(user, channels[c], Mine(user), Ranks(user))
    {}

    /** The loop of `User::MakeQuit`: out of every channel, in any order. */
    method QuitAll(user: User, ghost k: string) returns (touched: bool)
      requires Valid() && Registered(user) && k == Lower(user.nick) && k in state.users
      modifies repr
      ensures Valid() && Registered(user) && repr == old(repr) && Lower(user.nick) == k
      ensures state == Quitting(old(state), k, old(state).users[k].channels) && user.channels == {}
      ensures forall c :: c in channels ==> c in old(channels) && channels[c] == old(channels)[c]
      ensures forall c :: c in channels ==> Kept(user, channels[c], old(Mine(user)), old(Ranks(user)))
      ensures touched <==> AloneSomewhere(old(state), k)
    {
      hide *;
      InTables(user);
      ghost var n, done, mine, ranks := state, {}, Mine(user), Ranks(user);
      touched := false;
      QuitStart(n, k);
      AllKept(user);
      while user.channels != {}
        invariant Valid() && repr == old(repr) && Registered(user) && Lower(user.nick) == k
        invariant state == Quitting(n, k, done) && done <= n.users[k].channels
        invariant touched <==> exists c :: c in done && c in n.channels && n.channels[c].body.users == {k}
        invariant forall c :: c in channels ==> c in old(channels) && channels[c] == old(channels)[c]
        invariant forall c :: c in channels ==> Kept(user, channels[c], mine, ranks)
        decreases |user.channels|
      {
        QuittingChannels(n, k, done);
        var chan :| chan in user.channels;
        InChannel(user, chan);
        WasMine(user, chan, mine, ranks);
        var gone := QuitChannel(user, chan, n, done);
        LeftIsKept(user, chan, mine, ranks);
        touched := touched || gone;
        done := done + {Lower(chan.name)};
      }
      QuittingChannels(n, k, done);
      NoChannels(user);
      AloneAmong(n, k, done);
    }

    lemma WasMine(user: User, chan: Channel, mine: set<Channel>, ranks: iset<(Channel, Rank)>)
      requires Kept(user, chan, mine, ranks) && user in chan.users
      ensures chan in mine
    {}

    lemma LeftIsKept(user: User, chan: Channel, mine: set<Channel>, ranks: iset<(Channel, Rank)>)
      requires chan in mine && user !in chan.users && forall r :: !chan.Holds(user, r)
      ensures Kept(user, chan, mine, ranks)
    {}

    /** `User::MakeQuit`: out of every channel, then out of the nick table. A rank pointer to the
        user remains exactly where it was held in a channel the user was not in. `touched`: the
        broadcast that follows has read a channel just deleted. */
    method MakeQuit(user: User) returns (touched: bool)
      requires Valid() && Registered(user)
      modifies repr
      ensures Valid() && repr == old(repr)
      ensures state == Quit(old(state), old(Lower(user.nick)))
      ensures forall c :: c in channels ==> c in old(channels) && channels[c] == old(channels)[c]
      ensures forall c, r :: c in channels ==>
                (channels[c].Holds(user, r) <==>
                  old(c in channels && channels[c].Holds(user, r) && user !in channels[c].users))
      ensures old(RanksLead()) ==> (RanksLead() <==> !RankedOutside(old(state), old(Lower(user.nick))))
      ensures touched <==> AloneSomewhere(old(state), old(Lower(user.nick)))
    {
      hide *;
      RanksLeadIs();
      InTables(user);
      ghost var n, k, mine, ranks := state, Lower(user.nick), Mine(user), Ranks(user);
      Recorded(user);
      touched := QuitAll(user, k);
      InNone(user);
      QuitEnd(n, k);
      InTables(user);
      DropNick(Lower(user.nick));
      RanksLeadIs();
      QuitIs(n, k);
      forall c | c in channels ensures user !in channels[c].users && Kept(user, channels[c], mine, ranks) {}
      forall c, r | c in channels
        ensures channels[c].Holds(user, r) <==> (channels[c], r) in ranks && channels[c] !in mine
      {
        KeptOutside(user, channels[c], mine, ranks);
      }
    }

    /** Every rank pointer leads to a user of the nick table. */
    ghost predicate RanksLead()
      reads `users, `channels, channels.Values
    {
      forall c :: c in channels ==>
        channels[c].operators + channels[c].halfoperators + channels[c].voices <= users.Values
    }

    lemma RanksLeadIs()
      requires Valid()
      ensures RanksLead() <==> NoneOrphaned(state)
    {
      forall c | c in channels ensures channels[c].Orphaned(users) == state.channels[c].body.orphaned {
        assert channels[c].Is(state.channels[c], users);
      }
    }

    lemma KeptOutside(user: User, chan: Channel, mine: set<Channel>, ranks: iset<(Channel, Rank)>)
      requires Kept(user, chan, mine, ranks) && user !in chan.users
      ensures forall r :: chan.Holds(user, r) <==> (chan, r) in ranks && chan !in mine
    {}

    lemma Recorded(user: User)
      ensures forall c :: c in channels ==> (channels[c] in Mine(user) <==> user in channels[c].users)
      ensures forall c, r :: c in channels ==> ((channels[c], r) in Ranks(user) <==> channels[c].Holds(user, r))
    {}

    lemma InTables(user: User)
      requires Valid() && Registered(user)
      ensures this in repr && user in repr && Coherent(state)
      ensures Lower(user.nick) in state.users && Lower(user.nick) in users
      ensures forall c :: c in channels ==> channels[c] in repr
    {}

    lemma InNone(user: User)
      requires Valid() && Registered(user) && user.channels == {}
      ensures forall c :: c in channels ==> user !in channels[c].users
    {
      ghost var k := Lower(user.nick);
      NoChannels(user);
      forall c | c in channels ensures user !in channels[c].users {
        assert Joined(state, k, c) <==> Member(state, k, c);
        channels[c].Answers(state.channels[c], users, k);
      }
    }
  }

  /** `MakeQuit` after the channels in `done`: the user is out of them, the emptied ones are gone. */
  ghost function QuitChannels(n: Net, k: string, done: set<string>): map<string, ChanRec> {
    map c | c in n.channels && !(c in done && n.channels[c].body.users - {k} == {}) ::
      if c in done then n.channels[c].(body := n.channels[c].body.Without(k)) else n.channels[c]
  }

  /** The state in the middle of a quit. */
  ghost function Quitting(n: Net, k: string, done: set<string>): Net
    requires k in n.users
  {
    Net(n.users[k := n.users[k].(channels := n.users[k].channels - done)], QuitChannels(n, k, done))
  }

  /** The key stands for nobody any more. */
  ghost function Forgotten(n: Net, k: string): Net {
    Net(n.users - {k}, map c | c in n.channels :: n.channels[c].(body := n.channels[c].body.Deserted(k)))
  }

  lemma QuitStart(n: Net, k: string)
    requires k in n.users
    ensures Quitting(n, k, {}) == n
  {
    assert n.users[k].channels - {} == n.users[k].channels;
    assert QuitChannels(n, k, {}) == n.channels;
  }

  lemma QuittingChannels(n: Net, k: string, done: set<string>)
    requires k in n.users
    ensures k in Quitting(n, k, done).users && Quitting(n, k, done).users[k].channels == n.users[k].channels - done
  {}

  lemma QuitChannelsStep(n: Net, k: string, done: set<string>, c: string)
    requires c in n.channels && c !in done
    ensures QuitChannels(n, k, done + {c}) ==
            if n.channels[c].body.users - {k} == {} then QuitChannels(n, k, done) - {c}
            else QuitChannels(n, k, done)[c := n.channels[c].(body := n.channels[c].body.Without(k))]
    ensures c in QuitChannels(n, k, done) && QuitChannels(n, k, done)[c] == n.channels[c]
  {
    assert forall d :: d in done + {c} <==> d == c || d in done;
  }

  lemma QuitStep(n: Net, k: string, done: set<string>, c: string)
    requires k in n.users && k in Quitting(n, k, done).users
    requires c in Quitting(n, k, done).users[k].channels && c in Quitting(n, k, done).channels
    ensures Reap(Leave(Quitting(n, k, done), k, c), c) == Quitting(n, k, done + {c})
    ensures c in n.channels && Quitting(n, k, done).channels[c] == n.channels[c]
  {
    assert c in n.channels;
    QuitChannelsStep(n, k, done, c);
    hide QuitChannels;
    var u, q := n.users[k], Quitting(n, k, done);
    assert u.channels - done - {c} == u.channels - (done + {c});
    assert q.users[k := u.(channels := u.channels - (done + {c}))] ==
           n.users[k := u.(channels := u.channels - (done + {c}))];
    var body := n.channels[c].body.Without(k);
    assert q.channels[c := n.channels[c].(body := body)] - {c} == q.channels - {c};
  }

  lemma QuitIs(n: Net, k: string)
    requires Coherent(n) && k in n.users
    ensures NoneOrphaned(n) ==> (NoneOrphaned(Quit(n, k)) <==> !RankedOutside(n, k))
  {
    hide *;
    if NoneOrphaned(n) { QuitOrphans(n, k); }
  }

  lemma AloneAmong(n: Net, k: string, done: set<string>)
    requires Coherent(n) && k in n.users && done <= n.users[k].channels && n.users[k].channels - done == {}
    ensures done == n.users[k].channels
    ensures (exists c :: c in done && c in n.channels && n.channels[c].body.users == {k}) <==> AloneSomewhere(n, k)
  {
    assert forall c :: c in n.users[k].channels && c !in done ==> c in n.users[k].channels - done;
    forall c | c in n.channels && n.channels[c].body.users == {k} ensures c in n.users[k].channels {
      assert Joined(n, k, c) <==> Member(n, k, c);
    }
  }

  lemma QuitEnd(n: Net, k: string)
    requires k in n.users
    ensures k in Quitting(n, k, n.users[k].channels).users
    ensures Quitting(n, k, n.users[k].channels).users[k].channels == {}
    ensures Forgotten(Quitting(n, k, n.users[k].channels), k) == Quit(n, k)
  {
    ghost var done := n.users[k].channels;
    assert forall ch: Chan :: ch.Without(k).Deserted(k) == ch.Without(k);
    assert Forgotten(Quitting(n, k, done), k).channels == Quit(n, k).channels;
  }
}
