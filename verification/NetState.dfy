/** The network state: the nick table `Users`, the channel table `Channels`, and the
    membership graph between them, with every command as one atomic step. */
module NetState {
  import opened Text
  import opened Glob
  import opened ChannelState

  /** A nick-table entry; `channels` holds the keys of the channels the user has joined. */
  datatype UserRec = UserRec(nick: string, ident: string, host: string, cloak: string, vhost: string,
                             server: string, login: int, r: bool, z: bool, w: bool, o: bool,
                             away: Option<string>, local: bool, channels: set<string>)

  datatype ChanRec = ChanRec(name: string, body: Chan)

  datatype Net = Net(users: map<string, UserRec>, channels: map<string, ChanRec>)

  const NOTHING := Net(map[], map[])

  // ---------------------------------------------------------------- invariants

  ghost predicate Joined(n: Net, k: string, c: string) { k in n.users && c in n.users[k].channels }

  ghost predicate Member(n: Net, k: string, c: string) { c in n.channels && k in n.channels[c].body.users }

  /** u is in c.users exactly when c is in u.channels; so members are in the nick table
      and joined channels in the channel table. */
  ghost predicate Linked(n: Net) { forall k, c :: Joined(n, k, c) <==> Member(n, k, c) }

  /** Each table is keyed by the lower-cased name of its entry. */
  ghost predicate Keyed(n: Net) {
    (forall k :: k in n.users ==> Lower(n.users[k].nick) == k) &&
    (forall c :: c in n.channels ==> Lower(n.channels[c].name) == c)
  }

  ghost predicate RanksKnown(n: Net) { forall c :: c in n.channels ==> n.channels[c].body.Known(n.users.Keys) }

  /** What holds in every reachable state: memberships at both ends, keyed tables, and no rank
      under a key that stands for nobody. */
  ghost predicate Coherent(n: Net) { Linked(n) && Keyed(n) && RanksKnown(n) }

  /** Ranks are held by members only. */
  ghost predicate RanksWithin(n: Net) { forall c :: c in n.channels ==> n.channels[c].body.Ranked() }

  /** Every rank pointer leads to a user of the nick table. */
  ghost predicate NoneOrphaned(n: Net) { forall c :: c in n.channels ==> !n.channels[c].body.orphaned }

  ghost predicate Graph(n: Net) { Coherent(n) && RanksWithin(n) }

  ghost predicate NoEmptyChannel(n: Net) { forall c :: c in n.channels ==> n.channels[c].body.users != {} }

  ghost predicate ExclusiveRanks(n: Net) { forall c :: c in n.channels ==> n.channels[c].body.Exclusive() }

  ghost predicate DistinctMasks(n: Net) {
    forall c :: c in n.channels ==> MasksDistinct(n.channels[c].body.bans, n.channels[c].body.pbans)
  }

  // ---------------------------------------------------------------- elementary moves

  function WithBody(n: Net, c: string, body: Chan): Net
    requires c in n.channels
  {
    n.(channels := n.channels[c := n.channels[c].(body := body)])
  }

  lemma WithBodyTwice(n: Net, c: string, a: Chan, b: Chan)
    requires c in n.channels
    ensures WithBody(WithBody(n, c, a), c, b) == WithBody(n, c, b)
  {
    assert WithBody(WithBody(n, c, a), c, b).channels == WithBody(n, c, b).channels;
  }

  lemma WithBodySame(n: Net, c: string)
    requires c in n.channels
    ensures WithBody(n, c, n.channels[c].body) == n
  {
    assert WithBody(n, c, n.channels[c].body).channels == n.channels;
  }

  /** `new Channel` and the insertion into `Channels`, which never overwrites. */
  function OpenChannel(n: Net, name: string): Net {
    if Lower(name) in n.channels then n else n.(channels := n.channels[Lower(name) := ChanRec(name, EMPTY)])
  }

  /** Both ends of a membership: `channels.insert` and `InsertUser`. */
  function Enter(n: Net, k: string, c: string): Net
    requires k in n.users && c in n.channels
  {
    var u, ch := n.users[k], n.channels[c].body;
    WithBody(n, c, ch.(users := ch.users + {k})).(users := n.users[k := u.(channels := u.channels + {c})])
  }

  lemma EnterChannels(n: Net, k: string, c: string)
    ensures k in n.users && c in n.channels ==> Enter(n, k, c).channels.Keys == n.channels.Keys
  {}

  /** Both ends again: `channels.erase` and `RemoveUser`. */
  function Leave(n: Net, k: string, c: string): Net
    requires k in n.users && c in n.channels
  {
    var u := n.users[k];
    WithBody(n, c, n.channels[c].body.Without(k)).(users := n.users[k := u.(channels := u.channels - {c})])
  }

  /** An empty channel leaves the channel table. */
  function Reap(n: Net, c: string): Net {
    if c in n.channels && n.channels[c].body.users == {} then n.(channels := n.channels - {c}) else n
  }

  /** `MakeQuit`: the user is out of its channels and out of the nick table, and the emptied
      channels are gone. Other channels are not looked at: a rank held there is nobody's now. */
  function Quit(n: Net, k: string): Net
    requires k in n.users
  {
    Net(n.users - {k},
        map c | c in n.channels && !(c in n.users[k].channels && n.channels[c].body.users - {k} == {}) ::
          var body := n.channels[c].body;
          n.channels[c].(body := if c in n.users[k].channels then body.Without(k) else body.Deserted(k)))
  }

  /** The user holds a rank in a channel it is not in. */
  predicate RankedOutside(n: Net, k: string) {
    exists c :: c in n.channels && k !in n.channels[c].body.users && !Rankless(n.channels[c].body, k)
  }

  function Renamed(s: set<string>, a: string, b: string): set<string> { if a in s then s - {a} + {b} else s }

  function RenamedChan(ch: Chan, a: string, b: string): Chan {
    ch.(users := Renamed(ch.users, a, b), ops := Renamed(ch.ops, a, b),
        halfs := Renamed(ch.halfs, a, b), voices := Renamed(ch.voices, a, b))
  }

  /** `ChangeNickName` to a free nick; the pointer sets do not change, the keys they stand for do. */
  function Rekey(n: Net, a: string, nick: string): Net
    requires a in n.users
  {
    var b := Lower(nick);
    Net((n.users - {a})[b := n.users[a].(nick := nick)],
        map c | c in n.channels :: n.channels[c].(body := RenamedChan(n.channels[c].body, a, b)))
  }

  /** `User::AddUser`. */
  function AddUser(n: Net, u: UserRec): Net {
    if Lower(u.nick) in n.users then n else n.(users := n.users[Lower(u.nick) := u])
  }

  /** `User::ChangeNickName`: refused when the new nick is taken or the old one unknown. */
  function ChangeNickName(n: Net, oldnick: string, newnick: string): Net {
    if Lower(newnick) in n.users || Lower(oldnick) !in n.users then n else Rekey(n, Lower(oldnick), newnick)
  }

  /** The tables under NICK: a change of case only keeps the key, and there `ChangeNickName`
      finds the new nick taken by the user itself. */
  function NickMove(n: Net, k: string, newnick: string): Net
    requires k in n.users
  {
    if Lower(newnick) == k then n.(users := n.users[k := n.users[k].(nick := newnick)])
    else ChangeNickName(n, n.users[k].nick, newnick)
  }

  /** Fields of one user changed, its nick and memberships as they were. */
  function Amend(n: Net, k: string, u: UserRec): Net
    requires k in n.users
  {
    n.(users := n.users[k := u])
  }

  /** The away flag and text of `User::away`. */
  function AwayMove(n: Net, k: string, away: Option<string>): Net
    requires k in n.users
  {
    Amend(n, k, n.users[k].(away := away))
  }

  /** `User::setMode`. */
  function FlagSet(u: UserRec, c: char, on: bool): UserRec {
    u.(o := if c == 'o' then on else u.o, r := if c == 'r' then on else u.r,
       z := if c == 'z' then on else u.z, w := if c == 'w' then on else u.w)
  }

  /** What the services' databases answer, by nick, by channel name or by both, and the hash
      that makes a cloak of a host. */
  datatype Services = Services(vhost: string -> string, registered: string -> bool, ircop: string -> bool,
                               noop: string -> bool, autovoice: string -> bool,
                               level: (string, string) -> string, founder: (string, string) -> bool,
                               cloak: string -> string)

  /** A channel after `ChanServ::CheckModes` of the user. */
  function Checked(u: UserRec, s: Services, k: string, c: ChanRec): ChanRec {
    var access := Access(s.level(u.nick, c.name), s.founder(u.nick, c.name), u.o);
    c.(body := CheckModes(Effect(c.body, []), k, s.noop(u.nick), s.autovoice(c.name), access).chan)
  }

  /** `CheckModes` of the user in each channel of `done`. */
  function CheckedIn(n: Net, s: Services, k: string, done: set<string>): Net
    requires k in n.users
  {
    n.(channels := map c | c in n.channels ::
         if c in done then Checked(n.users[k], s, k, n.channels[c]) else n.channels[c])
  }

  /** The virtual host that `Cycle` gives. */
  function NewVhost(u: UserRec, s: Services): string {
    if s.vhost(u.nick) != "" then s.vhost(u.nick) else if !s.registered(u.nick) then u.cloak else u.vhost
  }

  /** `User::Cycle`: nothing outside channels or for a virtual host that stays; otherwise it is
      set, and `CheckModes` runs in every channel. */
  function Cycle(n: Net, s: Services, k: string): Net
    requires k in n.users
  {
    var u := n.users[k];
    if u.channels == {} || NewVhost(u, s) == u.vhost then n
    else CheckedIn(Amend(n, k, u.(vhost := NewVhost(u, s))), s, k, u.channels)
  }

  /** `cmdNick` for a registered user: the tables, `CheckModes` in every channel, and for a
      new key the cloak, the flag of IRC operators and `Cycle`. */
  function NickCommand(n: Net, s: Services, k: string, newnick: string): Net
    requires k in n.users
  {
    var b := Lower(newnick);
    if b != k && b in n.users then n
    else
      var n1 := NickMove(n, k, newnick);
      if b !in n1.users then n1
      else
        var n2 := CheckedIn(n1, s, b, n1.users[b].channels);
        if b == k then n2
        else Cycle(Amend(n2, b, n2.users[b].(cloak := s.cloak(n2.users[b].host), o := s.ircop(newnick))), s, b)
  }

  /** A rank given to or taken from any user, member or not. */
  function RankMove(n: Net, k: string, c: string, r: Rank, on: bool): Net
    requires c in n.channels
  {
    var ch := n.channels[c].body;
    WithBody(n, c, ch.With(r, if on then ch.Holders(r) + {k} else ch.Holders(r) - {k}))
  }

  // ---------------------------------------------------------------- commands

  predicate Forbidden(c: char) { c in "'\";@*/,." }

  /** `Utils::checkchan`. */
  predicate CheckChan(name: string) {
    name != "" && name[0] == '#' && forall i :: 0 <= i < |name| ==> !Forbidden(name[i])
  }

  /** What the databases and the configuration answer about a channel and a joining user. */
  datatype Policy = Policy(registered: bool, onlyreg: bool, onlysecure: bool, onlyweb: bool, onlyaccess: bool,
                           geoblocked: bool, akick: bool, key: string, flooding: bool,
                           noop: bool, autovoice: bool, access: nat,
                           chanlen: nat, maxchannels: int, exception: int)

  datatype JoinResult = JoinResult(net: Net, j: nat)

  function Settle(n: Net, k: string, c: string, p: Policy): Net
    requires c in n.channels
  {
    WithBody(n, c, ChannelState.CheckModes(Effect(n.channels[c].body, []), k, p.noop, p.autovoice, p.access).chan)
  }

  predicate TurnedAway(joined: nat, name: string, p: Policy) {
    !CheckChan(name) || |name| < 2 || |name| > p.chanlen ||
    (joined >= p.maxchannels && p.exception == 0) ||
    (p.exception > 0 && joined >= p.exception)
  }

  predicate Barred(u: UserRec, p: Policy) {
    !u.o && ((p.onlyreg && !u.r) || (p.onlysecure && !u.z) || (p.onlyweb && !u.w) ||
             (p.onlyaccess && p.access == 0) || p.geoblocked || p.akick)
  }

  function Userhost(u: UserRec, host: string): string { u.nick + "!" + u.ident + "@" + host }

  /** JOIN of an unregistered channel: no ban is looked at, and whoever opens it is operator. */
  function JoinFree(n: Net, k: string, name: string): Net
    requires k in n.users
  {
    var c := Lower(name);
    if c in n.channels then (if k in n.channels[c].body.users then n else Enter(n, k, c))
    else
      var n' := Enter(OpenChannel(n, name), k, c);
      WithBody(n', c, n'.channels[c].body.(ops := {k}))
  }

  /** Kept out of an existing registered channel: a member already, banned under the cloak or
      the virtual host, or on flood. The matcher is asked even for IRC operators. */
  function RefusedIn(u: UserRec, k: string, ch: Chan, p: Policy): Verdict {
    if k in ch.users then Yes
    else
      var first := IsBan(ch, Userhost(u, u.cloak));
      if first == Undefined then Undefined
      else if first == Yes && !u.o then Yes
      else
        var second := IsBan(ch, Userhost(u, u.vhost));
        if second == Undefined then Undefined
        else if (second == Yes || p.flooding) && !u.o then Yes
        else No
  }

  /** One channel of a JOIN; `args` are the words of the command and `j` the next key to
      try. None: a key is read past the last word, or a ban is matched past its text. */
  function JoinOne(n: Net, k: string, name: string, p: Policy, args: seq<string>, j: nat): Option<JoinResult>
    requires k in n.users
  {
    var u, c := n.users[k], Lower(name);
    if TurnedAway(|u.channels|, name, p) then Some(JoinResult(n, j))
    else if !p.registered then Some(JoinResult(JoinFree(n, k, name), j))
    else if Barred(u, p) then Some(JoinResult(n, j))
    else
      var needsKey := p.key != "" && !u.o;
      if needsKey && |args| < 3 then Some(JoinResult(n, j))
      else if needsKey && j >= |args| then None
      else if needsKey && args[j] != "" && args[j] != p.key then Some(JoinResult(n, j))
      else
        var j' := if needsKey then j + 1 else j;
        var refused := if c in n.channels then RefusedIn(u, k, n.channels[c].body, p) else No;
        if refused == Undefined then None
        else if refused == Yes then Some(JoinResult(n, j'))
        else Some(JoinResult(Settle(Enter(OpenChannel(n, name), k, c), k, c, p), j'))
  }

  /** The JOIN loop over the comma-separated names. */
  function JoinAll(n: Net, k: string, names: seq<string>, policy: string -> Policy, args: seq<string>,
                   j: nat): Option<JoinResult>
    requires k in n.users
    decreases |names|
  {
    if names == [] then Some(JoinResult(n, j))
    else
      match JoinOne(n, k, names[0], policy(names[0]), args, j)
      case None => None
      case Some(r) => JoinAll(r.net, k, names[1..], policy, args, r.j)
  }

  /** One channel of SAJOIN: `t` enters whatever the channel's modes, keys and bans. */
  function ForceOne(n: Net, t: string, name: string, p: Policy): Net
    requires t in n.users
  {
    var c := Lower(name);
    if !CheckChan(name) || |name| < 2 || |name| > p.chanlen then n
    else if !p.registered then JoinFree(n, t, name)
    else if c in n.channels && t in n.channels[c].body.users then n
    else Settle(Enter(OpenChannel(n, name), t, c), t, c, p)
  }

  function ForceAll(n: Net, t: string, names: seq<string>, policy: string -> Policy): Net
    requires t in n.users
    decreases |names|
  {
    if names == [] then n else ForceAll(ForceOne(n, t, names[0], policy(names[0])), t, names[1..], policy)
  }

  /** PART, for a member. */
  function Part(n: Net, k: string, c: string): Net {
    if k in n.users && c in n.channels && k in n.channels[c].body.users then Reap(Leave(n, k, c), c) else n
  }

  predicate MayKick(n: Net, k: string, c: string, v: string)
    requires k in n.users && v in n.users && c in n.channels
  {
    var ch := n.channels[c].body;
    (k in ch.ops || k in ch.halfs) && v in ch.users && (v !in ch.ops || n.users[k].o) && !n.users[v].o
  }

  /** KICK: the victim leaves, but nothing deletes the channel. */
  function Kick(n: Net, k: string, c: string, v: string): Net {
    if k in n.users && v in n.users && c in n.channels && MayKick(n, k, c, v) then Leave(n, v, c) else n
  }

  /** MODE with parameters, behind its guards. */
  function Mode(n: Net, k: string, c: string, registered: bool, maxbans: nat, now: int,
                modes: string, params: seq<string>): Option<Net>
  {
    if k !in n.users || c !in n.channels || (!registered && !n.users[k].o) then Some(n)
    else
      var ch := n.channels[c].body;
      if k !in ch.ops && k !in ch.halfs && !n.users[k].o then Some(n)
      else
        var me := Caller(k, n.users[k].nick, n.users[k].o, n.users.Keys, maxbans, now);
        match ModeLetters(ch, me, modes, params)
        case None => None
        case Some(e) => Some(WithBody(n, c, e.chan))
  }

  /** SJOIN: the channel is created when missing and the named rank is added. */
  function RemoteJoin(n: Net, k: string, name: string, rank: Option<Rank>): Net {
    if k !in n.users then n
    else
      var c := Lower(name);
      var n0 := OpenChannel(n, name);
      var n1 := if k in n0.channels[c].body.users then n0 else Enter(n0, k, c);
      match rank
      case None => n1
      case Some(r) => RankMove(n1, k, c, r, true)
  }

  /** Every local command as one step; users and channels are named by their table keys.
      CFlag: OPER, identification and whatever else sets a mode of the user itself. */
  datatype Cmd =
    | CNew(user: UserRec)
    | CNick(k: string, newnick: string, s: Services)
    | CCycle(k: string, s: Services)
    | CQuit(k: string)
    | CJoin(k: string, names: seq<string>, policy: string -> Policy, args: seq<string>)
    | CPart(k: string, c: string)
    | CKick(k: string, c: string, v: string)
    | CMode(k: string, c: string, registered: bool, maxbans: nat, now: int, modes: string, params: seq<string>)
    | CService(c: string, t: string, r: Rank, on: bool)
    | CAuto(c: string, t: string, noop: bool, autovoice: bool, access: nat)
    | CForce(k: string, t: string, names: seq<string>, policy: string -> Policy)
    | CForcePart(k: string, t: string, c: string)
    | CAway(k: string, away: Option<string>)
    | CFlag(k: string, letter: char, on: bool)

  /** None: the command reads memory that is not there. */
  function Step(n: Net, cmd: Cmd): Option<Net> {
    match cmd
    case CNew(u) => Some(AddUser(n, u.(channels := {})))
    case CNick(k, newnick, s) => Some(if k in n.users then NickCommand(n, s, k, newnick) else n)
    case CCycle(k, s) => Some(if k in n.users then Cycle(n, s, k) else n)
    case CQuit(k) => Some(if k in n.users then Quit(n, k) else n)
    case CJoin(k, names, policy, args) =>
      if k !in n.users then Some(n)
      else (match JoinAll(n, k, names, policy, args, 2) case None => None case Some(r) => Some(r.net))
    case CPart(k, c) => Some(Part(n, k, c))
    case CKick(k, c, v) => Some(Kick(n, k, c, v))
    case CMode(k, c, registered, maxbans, now, modes, params) => Mode(n, k, c, registered, maxbans, now, modes, params)
    case CService(c, t, r, on) =>
      Some(if c in n.channels && t in n.users
           then WithBody(n, c, ServiceRank(Effect(n.channels[c].body, []), t, r, on).chan) else n)
    case CAuto(c, t, noop, autovoice, access) =>
      Some(if c in n.channels
           then WithBody(n, c, CheckModes(Effect(n.channels[c].body, []), t, noop, autovoice, access).chan) else n)
    case CForce(k, t, names, policy) =>
      Some(if k in n.users && n.users[k].o && t in n.users then ForceAll(n, t, names, policy) else n)
    case CForcePart(k, t, c) => Some(if k in n.users && n.users[k].o then Part(n, t, c) else n)
    case CAway(k, away) => Some(if k in n.users then AwayMove(n, k, away) else n)
    case CFlag(k, letter, on) => Some(if k in n.users then Amend(n, k, FlagSet(n.users[k], letter, on)) else n)
  }

  // ---------------------------------------------------------------- every step keeps the invariants

  /** The state stays coherent; ranks stay within the members, ranks exclusive, no rank
      nobody's and masks distinct if they were. */
  ghost predicate Milder(n: Net, n': Net) {
    Coherent(n') && (RanksWithin(n) ==> RanksWithin(n')) && (ExclusiveRanks(n) ==> ExclusiveRanks(n')) &&
    (NoneOrphaned(n) ==> NoneOrphaned(n')) && (DistinctMasks(n) ==> DistinctMasks(n'))
  }

  /** Channels stay non-empty as well; distinct masks may depend on that. */
  ghost predicate Keeps(n: Net, n': Net) {
    Coherent(n') && (RanksWithin(n) ==> RanksWithin(n')) && (ExclusiveRanks(n) ==> ExclusiveRanks(n')) &&
    (NoneOrphaned(n) ==> NoneOrphaned(n')) && (NoEmptyChannel(n) ==> NoEmptyChannel(n')) &&
    (NoEmptyChannel(n) && DistinctMasks(n) ==> DistinctMasks(n'))
  }

  lemma KeepsTwice(a: Net, b: Net, c: Net)
    requires Keeps(a, b) && Keeps(b, c)
    ensures Keeps(a, c)
  {}

  lemma MilderTwice(a: Net, b: Net, c: Net)
    requires Milder(a, b) && Milder(b, c)
    ensures Milder(a, c)
  {}

  lemma StaysCoherent(n: Net, n': Net)
    requires Keeps(n, n') || Milder(n, n')
    ensures Coherent(n')
  {}

  lemma KeepsSame(n: Net)
    requires Coherent(n)
    ensures Keeps(n, n) && Milder(n, n)
  {}

  lemma EnterKeeps(n: Net, k: string, c: string)
    requires Coherent(n) && k in n.users && c in n.channels
    ensures Milder(n, Enter(n, k, c))
  {
    hide MasksDistinct;
    var n' := Enter(n, k, c);
    forall x, d ensures Joined(n', x, d) <==> Member(n', x, d) { assert Joined(n, x, d) <==> Member(n, x, d); }
    assert n'.users.Keys == n.users.Keys;
  }

  /** `User::kick` and the first half of a part: a channel is left empty exactly when the one
      who leaves was its only member. */
  lemma LeaveKeeps(n: Net, k: string, c: string)
    requires Coherent(n) && k in n.users && c in n.channels
    ensures Milder(n, Leave(n, k, c))
    ensures NoEmptyChannel(n) ==> (NoEmptyChannel(Leave(n, k, c)) <==> n.channels[c].body.users != {k})
  {
    hide MasksDistinct;
    var n' := Leave(n, k, c);
    forall x, d ensures Joined(n', x, d) <==> Member(n', x, d) { assert Joined(n, x, d) <==> Member(n, x, d); }
    assert n'.users.Keys == n.users.Keys;
    if NoEmptyChannel(n) {
      LeavesNobody(n.channels[c].body.users, k);
      assert n'.channels[c].body.users == n.channels[c].body.users - {k};
    }
  }

  lemma LeavesNobody(s: set<string>, k: string)
    requires s != {}
    ensures s - {k} == {} <==> s == {k}
  {
    if s - {k} == {} { assert forall x :: x in s ==> x == k || x in s - {k}; }
  }

  lemma ReapKeeps(n: Net, c: string)
    requires Coherent(n)
    ensures Milder(n, Reap(n, c))
  {
    hide MasksDistinct;
    var n' := Reap(n, c);
    forall x, d ensures Joined(n', x, d) <==> Member(n', x, d) { assert Joined(n, x, d) <==> Member(n, x, d); }
  }

  lemma OpenKeeps(n: Net, name: string)
    requires Coherent(n)
    ensures Milder(n, OpenChannel(n, name))
  {
    var n' := OpenChannel(n, name);
    assert MasksDistinct([], []);
    hide MasksDistinct;
    forall x, d ensures Joined(n', x, d) <==> Member(n', x, d) { assert Joined(n, x, d) <==> Member(n, x, d); }
  }

  lemma BodyKeeps(n: Net, c: string, body: Chan)
    requires Coherent(n) && c in n.channels && body.users == n.channels[c].body.users && body.Known(n.users.Keys)
    ensures Coherent(WithBody(n, c, body))
  {
    var n' := WithBody(n, c, body);
    forall x, d ensures Joined(n', x, d) <==> Member(n', x, d) { assert Joined(n, x, d) <==> Member(n, x, d); }
  }

  /** A quit keeps every invariant but one: every rank pointer leads to a user of the table
      afterwards if and only if the user held no rank in a channel it was not in. */
  lemma QuitKeeps(n: Net, k: string)
    requires Coherent(n) && k in n.users
    ensures KeptBut(n, Quit(n, k), Lapses(false, false, false, false, RankedOutside(n, k)))
  {
    hide MasksDistinct;
    var n' := Quit(n, k);
    forall x, d ensures Joined(n', x, d) <==> Member(n', x, d) {
      assert Joined(n, x, d) <==> Member(n, x, d);
      assert Joined(n, k, d) <==> Member(n, k, d);
    }
    forall c | c in n'.channels ensures NoEmptyChannel(n) ==> n'.channels[c].body.users != {} {
      assert Joined(n, k, c) <==> Member(n, k, c);
      if k !in n.channels[c].body.users { assert n'.channels[c].body.users == n.channels[c].body.users; }
    }
    if NoneOrphaned(n) { QuitOrphans(n, k); }
  }

  lemma QuitOrphans(n: Net, k: string)
    requires Coherent(n) && k in n.users && NoneOrphaned(n)
    ensures NoneOrphaned(Quit(n, k)) <==> !RankedOutside(n, k)
  {
    var n' := Quit(n, k);
    forall c | c in n.channels ensures c in n.users[k].channels <==> k in n.channels[c].body.users {
      assert Joined(n, k, c) <==> Member(n, k, c);
    }
    if RankedOutside(n, k) {
      var c :| c in n.channels && k !in n.channels[c].body.users && !Rankless(n.channels[c].body, k);
      assert n'.channels[c].body.orphaned;
    }
  }

  /** Ranks held by members only leave nothing behind. */
  lemma MembersLeaveNothing(n: Net, k: string)
    requires RanksWithin(n)
    ensures !RankedOutside(n, k)
  {}

  /** `MakeQuit` goes on to broadcast on each channel: that reads a deleted one exactly when the
      user is the only member of some channel. */
  lemma QuitReadsDeletedIff(n: Net, k: string)
    requires Coherent(n) && k in n.users
    ensures (exists c :: c in n.users[k].channels && c !in Quit(n, k).channels) <==> AloneSomewhere(n, k)
  {
    forall c ensures c in n.users[k].channels && c !in Quit(n, k).channels <==>
                     c in n.channels && n.channels[c].body.users == {k} {
      assert Joined(n, k, c) <==> Member(n, k, c);
      if Member(n, k, c) { LeavesNobody(n.channels[c].body.users, k); }
    }
  }

  predicate AloneSomewhere(n: Net, k: string) { exists c :: c in n.channels && n.channels[c].body.users == {k} }

  lemma RekeyKeeps(n: Net, a: string, nick: string)
    requires Coherent(n) && a in n.users && Lower(nick) !in n.users
    ensures Keeps(n, Rekey(n, a, nick)) && Milder(n, Rekey(n, a, nick))
  {
    hide MasksDistinct;
    var n', b := Rekey(n, a, nick), Lower(nick);
    assert n'.users.Keys == n.users.Keys - {a} + {b};
    forall c | c in n.channels ensures RenamedWell(n.channels[c].body, n'.channels[c].body, n'.users.Keys) {
      assert Joined(n, b, c) <==> Member(n, b, c);
      RenamedKeeps(n.channels[c].body, a, b, n.users.Keys);
    }
    RekeyLinks(n, a, nick);
    hide Linked;
    hide RenamedChan;
    hide Lower;
  }

  /** What a rename leaves of a channel. */
  predicate RenamedWell(ch: Chan, ch': Chan, table: set<string>) {
    ch'.Known(table) && (ch.Ranked() ==> ch'.Ranked()) && (ch.Exclusive() ==> ch'.Exclusive()) &&
    (ch.users != {} ==> ch'.users != {}) && ch'.bans == ch.bans && ch'.pbans == ch.pbans &&
    ch'.orphaned == ch.orphaned
  }

  lemma RenamedKeeps(ch: Chan, a: string, b: string, table: set<string>)
    requires ch.Known(table) && a in table && b !in table && b !in ch.users
    ensures RenamedWell(ch, RenamedChan(ch, a, b), table - {a} + {b})
  {
    if a in ch.users { assert b in RenamedChan(ch, a, b).users; }
  }

  lemma RekeyLinks(n: Net, a: string, nick: string)
    requires Linked(n) && Keyed(n) && a in n.users && Lower(nick) !in n.users
    ensures Linked(Rekey(n, a, nick)) && Keyed(Rekey(n, a, nick))
  {
    var n', b := Rekey(n, a, nick), Lower(nick);
    forall x, d ensures Joined(n', x, d) <==> Member(n', x, d) {
      assert Joined(n, x, d) <==> Member(n, x, d);
      assert Joined(n, a, d) <==> Member(n, a, d);
      assert Joined(n, b, d) <==> Member(n, b, d);
    }
  }

  lemma AddUserKeeps(n: Net, u: UserRec)
    requires Coherent(n) && u.channels == {}
    ensures Keeps(n, AddUser(n, u)) && Milder(n, AddUser(n, u))
  {
    hide MasksDistinct;
    var n' := AddUser(n, u);
    forall x, d ensures Joined(n', x, d) <==> Member(n', x, d) { assert Joined(n, x, d) <==> Member(n, x, d); }
    assert n.users.Keys <= n'.users.Keys;
  }

  lemma AmendKeeps(n: Net, k: string, u: UserRec)
    requires Coherent(n) && k in n.users && u.channels == n.users[k].channels
    requires Lower(u.nick) == k || u.nick == n.users[k].nick
    ensures Keeps(n, Amend(n, k, u)) && Milder(n, Amend(n, k, u))
  {
    var n' := Amend(n, k, u);
    forall x, d ensures Joined(n', x, d) <==> Member(n', x, d) { assert Joined(n, x, d) <==> Member(n, x, d); }
    assert n'.users.Keys == n.users.Keys;
  }

  lemma EntryKeeps(n: Net, k: string, name: string)
    requires Coherent(n) && k in n.users
    ensures var n' := Enter(OpenChannel(n, name), k, Lower(name)); Keeps(n, n') && Milder(n, n')
  {
    OpenKeeps(n, name);
    EnterKeeps(OpenChannel(n, name), k, Lower(name));
  }

  /** Ranks changed among users of the table, masks as they were. */
  lemma RanksChanged(n: Net, c: string, body: Chan)
    requires Coherent(n) && c in n.channels && KeepsRanks(n.channels[c].body, body) && body.Known(n.users.Keys)
    requires body.orphaned == n.channels[c].body.orphaned
    requires NoEmptyChannel(n) && DistinctMasks(n) ==> MasksDistinct(body.bans, body.pbans)
    ensures Keeps(n, WithBody(n, c, body))
  {
    hide MasksDistinct;
    BodyKeeps(n, c, body);
  }

  lemma SettleKeeps(n: Net, k: string, c: string, p: Policy)
    requires Coherent(n) && c in n.channels && k in n.users
    ensures Keeps(n, Settle(n, k, c, p))
  {
    CheckedKeeps(n, k, c, p.noop, p.autovoice, p.access);
  }

  lemma CheckedKeeps(n: Net, k: string, c: string, noop: bool, autovoice: bool, access: nat)
    requires Coherent(n) && c in n.channels
    ensures Keeps(n, WithBody(n, c, CheckModes(Effect(n.channels[c].body, []), k, noop, autovoice, access).chan))
  {
    hide MasksDistinct;
    var ch := n.channels[c].body;
    var e := Effect(ch, []);
    CheckModesKeeps(e, k, noop, autovoice, access);
    assert Joined(n, k, c) <==> Member(n, k, c);
    CheckedKnown(ch, k, noop, autovoice, access, n.users.Keys);
    RanksChanged(n, c, CheckModes(e, k, noop, autovoice, access).chan);
  }

  lemma CheckedKnown(ch: Chan, k: string, noop: bool, autovoice: bool, access: nat, table: set<string>)
    requires ch.Known(table) && (k in ch.users ==> k in table)
    ensures var ch' := CheckModes(Effect(ch, []), k, noop, autovoice, access).chan;
            ch'.Known(table) && ch'.bans == ch.bans && ch'.pbans == ch.pbans && ch'.orphaned == ch.orphaned
  {}

  lemma CheckedInKeeps(n: Net, s: Services, k: string, done: set<string>)
    requires Coherent(n) && k in n.users
    ensures Keeps(n, CheckedIn(n, s, k, done)) && Milder(n, CheckedIn(n, s, k, done))
  {
    var n' := CheckedIn(n, s, k, done);
    forall c | c in n.channels
      ensures KeepsRanks(n.channels[c].body, n'.channels[c].body) && n'.channels[c].name == n.channels[c].name &&
              n'.channels[c].body.Known(n.users.Keys) &&
              n'.channels[c].body.bans == n.channels[c].body.bans &&
              n'.channels[c].body.pbans == n.channels[c].body.pbans &&
              n'.channels[c].body.orphaned == n.channels[c].body.orphaned
    {
      CheckedOne(n.users[k], s, k, n.channels[c], n.users.Keys);
      hide CheckModes;
    }
    forall x, d ensures Joined(n', x, d) <==> Member(n', x, d) { assert Joined(n, x, d) <==> Member(n, x, d); }
    hide CheckedIn;
    hide MasksDistinct;
  }

  lemma CheckedOne(u: UserRec, s: Services, k: string, c: ChanRec, table: set<string>)
    requires c.body.Known(table) && k in table
    ensures var c' := Checked(u, s, k, c);
            KeepsRanks(c.body, c'.body) && c'.name == c.name && c'.body.Known(table) &&
            c'.body.bans == c.body.bans && c'.body.pbans == c.body.pbans && c'.body.orphaned == c.body.orphaned
  {
    var access := Access(s.level(u.nick, c.name), s.founder(u.nick, c.name), u.o);
    CheckModesKeeps(Effect(c.body, []), k, s.noop(u.nick), s.autovoice(c.name), access);
    CheckedKnown(c.body, k, s.noop(u.nick), s.autovoice(c.name), access, table);
    hide CheckModes;
    hide Access;
  }

  lemma CycleKeeps(n: Net, s: Services, k: string)
    requires Coherent(n) && k in n.users
    ensures Keeps(n, Cycle(n, s, k))
  {
    hide Keeps;
    hide Coherent;
    hide CheckedIn;
    KeepsSame(n);
    var u := n.users[k];
    var n1 := Amend(n, k, u.(vhost := NewVhost(u, s)));
    AmendKeeps(n, k, u.(vhost := NewVhost(u, s)));
    StaysCoherent(n, n1);
    CheckedInKeeps(n1, s, k, u.channels);
    KeepsTwice(n, n1, CheckedIn(n1, s, k, u.channels));
  }

  /** `Cycle` changes something exactly for a user in channels whose virtual host is not the one
      the services give; it then has that one, and a second `Cycle` changes nothing. */
  lemma CycleSettles(n: Net, s: Services, k: string)
    requires k in n.users
    ensures var u, n' := n.users[k], Cycle(n, s, k);
            (n' == n <==> u.channels == {} || u.vhost == NewVhost(u, s)) &&
            n'.users[k] == u.(vhost := if u.channels == {} then u.vhost else NewVhost(u, s)) &&
            Cycle(n', s, k) == n'
  {
    CheckedInUsers(Amend(n, k, n.users[k].(vhost := NewVhost(n.users[k], s))), s, k, n.users[k].channels);
    hide CheckedIn;
  }

  lemma FounderKeeps(n: Net, k: string, name: string)
    requires Coherent(n) && k in n.users && Lower(name) !in n.channels
    ensures Keeps(n, JoinFree(n, k, name))
  {
    EntryKeeps(n, k, name);
    hide MasksDistinct;
    var c, n1 := Lower(name), Enter(OpenChannel(n, name), k, Lower(name));
    BodyKeeps(n1, c, n1.channels[c].body.(ops := {k}));
  }

  lemma JoinFreeKeeps(n: Net, k: string, name: string)
    requires Coherent(n) && k in n.users
    ensures Keeps(n, JoinFree(n, k, name)) && k in JoinFree(n, k, name).users
  {
    hide Keeps;
    hide Coherent;
    KeepsSame(n);
    if Lower(name) in n.channels { EntryKeeps(n, k, name); } else { FounderKeeps(n, k, name); }
  }

  /** Entering a registered channel, with the ranks given on entry. */
  lemma SettledEntryKeeps(n: Net, k: string, name: string, p: Policy)
    requires Coherent(n) && k in n.users
    ensures var n1 := Enter(OpenChannel(n, name), k, Lower(name));
            Keeps(n, Settle(n1, k, Lower(name), p)) && k in Settle(n1, k, Lower(name), p).users
  {
    var n1 := Enter(OpenChannel(n, name), k, Lower(name));
    EntryKeeps(n, k, name);
    SettleKeeps(n1, k, Lower(name), p);
    KeepsTwice(n, n1, Settle(n1, k, Lower(name), p));
  }

  lemma JoinOneKeeps(n: Net, k: string, name: string, p: Policy, args: seq<string>, j: nat)
    requires Coherent(n) && k in n.users
    requires JoinOne(n, k, name, p, args, j).Some?
    ensures var n' := JoinOne(n, k, name, p, args, j).value.net; Keeps(n, n') && k in n'.users
  {
    hide Keeps;
    hide Coherent;
    hide JoinFree;
    hide Settle;
    hide RefusedIn;
    JoinFreeKeeps(n, k, name);
    SettledEntryKeeps(n, k, name, p);
    KeepsSame(n);
  }

  lemma {:induction false} JoinAllKeeps(n: Net, k: string, names: seq<string>, policy: string -> Policy,
                                        args: seq<string>, j: nat)
    requires Coherent(n) && k in n.users
    requires JoinAll(n, k, names, policy, args, j).Some?
    ensures Keeps(n, JoinAll(n, k, names, policy, args, j).value.net)
    decreases |names|
  {
    hide JoinOne;
    if names == [] {
      KeepsSame(n);
    } else {
      JoinOneKeeps(n, k, names[0], policy(names[0]), args, j);
      var r := JoinOne(n, k, names[0], policy(names[0]), args, j).value;
      JoinAllKeeps(r.net, k, names[1..], policy, args, r.j);
      KeepsTwice(n, r.net, JoinAll(n, k, names, policy, args, j).value.net);
    }
  }

  lemma ForceOneKeeps(n: Net, t: string, name: string, p: Policy)
    requires Coherent(n) && t in n.users
    ensures Keeps(n, ForceOne(n, t, name, p)) && t in ForceOne(n, t, name, p).users
  {
    hide Keeps;
    hide Coherent;
    hide JoinFree;
    hide Settle;
    JoinFreeKeeps(n, t, name);
    SettledEntryKeeps(n, t, name, p);
    KeepsSame(n);
  }

  lemma {:induction false} ForceAllKeeps(n: Net, t: string, names: seq<string>, policy: string -> Policy)
    requires Coherent(n) && t in n.users
    ensures Keeps(n, ForceAll(n, t, names, policy))
    decreases |names|
  {
    hide ForceOne;
    if names == [] {
      KeepsSame(n);
    } else {
      ForceOneKeeps(n, t, names[0], policy(names[0]));
      var n1 := ForceOne(n, t, names[0], policy(names[0]));
      ForceAllKeeps(n1, t, names[1..], policy);
      KeepsTwice(n, n1, ForceAll(n, t, names, policy));
    }
  }

  lemma PartKeeps(n: Net, k: string, c: string)
    requires Coherent(n)
    ensures Keeps(n, Part(n, k, c))
  {
    if k in n.users && c in n.channels && k in n.channels[c].body.users {
      var n1 := Leave(n, k, c);
      LeaveKeeps(n, k, c);
      ReapKeeps(n1, c);
      MilderTwice(n, n1, Reap(n1, c));
      hide MasksDistinct;
      assert forall d :: d in n1.channels && d != c ==> n1.channels[d] == n.channels[d];
    }
  }

  /** KICK leaves an empty channel in the table exactly when the guard lets through a kick of
      the only member. */
  lemma KickKeeps(n: Net, k: string, c: string, v: string)
    requires Coherent(n)
    ensures Milder(n, Kick(n, k, c, v))
    ensures NoEmptyChannel(n) ==> (NoEmptyChannel(Kick(n, k, c, v)) <==> !KicksLast(n, k, c, v))
  {
    hide Milder;
    hide Coherent;
    KeepsSame(n);
    if k in n.users && v in n.users && c in n.channels && MayKick(n, k, c, v) { LeaveKeeps(n, v, c); }
  }

  predicate KicksLast(n: Net, k: string, c: string, v: string) {
    k in n.users && v in n.users && c in n.channels && MayKick(n, k, c, v) && n.channels[c].body.users == {v}
  }

  /** With ranks held by members and exclusive, that is the sole half-operator of a channel,
      no IRC operator, kicking itself. */
  lemma KickExact(n: Net, k: string, c: string, v: string)
    requires Graph(n) && NoEmptyChannel(n) && ExclusiveRanks(n)
    ensures NoEmptyChannel(Kick(n, k, c, v)) <==>
            !(k in n.users && c in n.channels && k == v && n.channels[c].body.users == {k} &&
              k in n.channels[c].body.halfs && !n.users[k].o)
  {
    KickKeeps(n, k, c, v);
    if c in n.channels {
      var ch := n.channels[c].body;
      assert ch.Ranked() && ch.Exclusive();
    }
  }

  lemma ModeKeeps(n: Net, k: string, c: string, registered: bool, maxbans: nat, now: int, modes: string,
                  params: seq<string>)
    requires Coherent(n) && Mode(n, k, c, registered, maxbans, now, modes, params).Some?
    ensures Keeps(n, Mode(n, k, c, registered, maxbans, now, modes, params).value)
  {
    hide MasksDistinct;
    KeepsSame(n);
    if k in n.users && c in n.channels {
      var ch := n.channels[c].body;
      var me := Caller(k, n.users[k].nick, n.users[k].o, n.users.Keys, maxbans, now);
      var evs := Events(modes, false, 0, |params|);
      if ModeLetters(ch, me, modes, params).Some? {
        ModeKeepsRanks(Effect(ch, []), me, evs, params);
        ModeKeepsKnown(Effect(ch, []), me, evs, params);
        if ch.users != {} && MasksDistinct(ch.bans, ch.pbans) { ModeKeepsMasks(Effect(ch, []), me, evs, params); }
        hide ModeLetters;
        RanksChangedBy(n, c, me, modes, params);
      }
    }
  }

  lemma RanksChangedBy(n: Net, c: string, me: Caller, modes: string, params: seq<string>)
    requires Coherent(n) && c in n.channels && ModeLetters(n.channels[c].body, me, modes, params).Some?
    requires var ch, body := n.channels[c].body, ModeLetters(n.channels[c].body, me, modes, params).value.chan;
             KeepsRanks(ch, body) && body.Known(n.users.Keys) && body.orphaned == ch.orphaned &&
             (ch.users != {} && MasksDistinct(ch.bans, ch.pbans) ==> MasksDistinct(body.bans, body.pbans))
    ensures Keeps(n, WithBody(n, c, ModeLetters(n.channels[c].body, me, modes, params).value.chan))
  {
    hide MasksDistinct;
    hide ModeLetters;
    RanksChanged(n, c, ModeLetters(n.channels[c].body, me, modes, params).value.chan);
  }

  lemma {:induction false} ModeKeepsKnown(e: Effect, me: Caller, evs: seq<Event>, params: seq<string>)
    requires forall k :: 0 <= k < |evs| ==> evs[k].arg < |params|
    requires e.chan.Known(me.known) && ApplyEvents(e, me, evs, params).Some?
    ensures ApplyEvents(e, me, evs, params).value.chan.Known(me.known)
    ensures ApplyEvents(e, me, evs, params).value.chan.orphaned == e.chan.orphaned
    decreases |evs|
  {
    hide ApplyEvent;
    if evs != [] {
      EventKeepsKnown(e, me, evs[0], params);
      ModeKeepsKnown(ApplyEvent(e, me, evs[0], params).value, me, evs[1..], params);
    }
  }

  lemma EventKeepsKnown(e: Effect, me: Caller, ev: Event, params: seq<string>)
    requires ev.arg < |params| && e.chan.Known(me.known) && ApplyEvent(e, me, ev, params).Some?
    ensures var ch := ApplyEvent(e, me, ev, params).value.chan;
            ch.Known(me.known) && ch.orphaned == e.chan.orphaned
  {
    hide BanLetter;
  }

  // ---------------------------------------------------------------- ranks named by a peer

  /** The user holds a rank of the channel other than this one. */
  predicate HoldsOther(ch: Chan, k: string, r: Rank) {
    match r
    case Op => k in ch.halfs || k in ch.voices
    case Half => k in ch.ops || k in ch.voices
    case Voice => k in ch.ops || k in ch.halfs
  }

  /** Giving a rank to any user of the table: exclusive ranks are lost exactly when the user
      holds another one, ranks held by members exactly when the user is no member. */
  lemma RankMoveExact(n: Net, k: string, c: string, r: Rank, on: bool)
    requires Coherent(n) && k in n.users && c in n.channels
    ensures var ch, n' := n.channels[c].body, RankMove(n, k, c, r, on);
            Coherent(n') && (NoEmptyChannel(n) ==> NoEmptyChannel(n')) && (DistinctMasks(n) ==> DistinctMasks(n')) &&
            (NoneOrphaned(n) ==> NoneOrphaned(n')) &&
            (ExclusiveRanks(n) ==> (ExclusiveRanks(n') <==> !(on && HoldsOther(ch, k, r)))) &&
            (RanksWithin(n) ==> (RanksWithin(n') <==> !(on && k !in ch.users)))
  {
    hide MasksDistinct;
    var ch := n.channels[c].body;
    var ch' := ch.With(r, if on then ch.Holders(r) + {k} else ch.Holders(r) - {k});
    BodyKeeps(n, c, ch');
    var n' := RankMove(n, k, c, r, on);
    assert n'.channels[c].body == ch';
    if on {
      assert k in ch'.Holders(r);
      if ch.Exclusive() { assert ch'.Exclusive() <==> !HoldsOther(ch, k, r); }
      if ch.Ranked() { assert ch'.Ranked() <==> k in ch.users; }
    }
  }

  /** The rank an SJOIN names for somebody who holds a different one. */
  predicate Clashes(n: Net, k: string, name: string, rank: Option<Rank>) {
    k in n.users && rank.Some? && Lower(name) in n.channels && HoldsOther(n.channels[Lower(name)].body, k, rank.value)
  }

  /** SJOIN keeps everything but exclusive ranks, and loses those exactly when it names a rank
      for somebody who holds a different one in that channel. */
  lemma RemoteJoinExact(n: Net, k: string, name: string, rank: Option<Rank>)
    requires Coherent(n)
    ensures var n' := RemoteJoin(n, k, name, rank);
            Coherent(n') && (RanksWithin(n) ==> RanksWithin(n')) && (NoEmptyChannel(n) ==> NoEmptyChannel(n')) &&
            (DistinctMasks(n) ==> DistinctMasks(n')) && (NoneOrphaned(n) ==> NoneOrphaned(n')) &&
            (ExclusiveRanks(n) ==> (ExclusiveRanks(n') <==> !Clashes(n, k, name, rank)))
  {
    KeepsSame(n);
    if k in n.users {
      var c := Lower(name);
      var n1 := RemoteJoin(n, k, name, None);
      EnteredOnce(n, k, name);
      hide Coherent;
      hide Milder;
      hide MasksDistinct;
      if rank.Some? { RankMoveExact(n1, k, c, rank.value, true); }
      hide RankMove;
    }
  }

  /** The membership part of SJOIN. */
  lemma EnteredOnce(n: Net, k: string, name: string)
    requires Coherent(n) && k in n.users
    ensures var c, n1 := Lower(name), RemoteJoin(n, k, name, None);
            Milder(n, n1) && (NoEmptyChannel(n) ==> NoEmptyChannel(n1)) &&
            (ExclusiveRanks(n) <==> ExclusiveRanks(n1)) &&
            k in n1.users && c in n1.channels && k in n1.channels[c].body.users &&
            forall r ::
              HoldsOther(n1.channels[c].body, k, r) <==> c in n.channels && HoldsOther(n.channels[c].body, k, r)
  {
    hide Milder;
    hide NoEmptyChannel;
    var c := Lower(name);
    KeepsSame(n);
    EntryKeeps(n, k, name);
    EntryRanks(n, k, name);
    hide Coherent;
    hide ExclusiveRanks;
    if c in n.channels && k in n.channels[c].body.users { assert RemoteJoin(n, k, name, None) == n; }
    else { assert RemoteJoin(n, k, name, None) == Enter(OpenChannel(n, name), k, c); }
  }

  lemma EntryRanks(n: Net, k: string, name: string)
    requires k in n.users
    ensures var c, n1 := Lower(name), Enter(OpenChannel(n, name), k, Lower(name));
            (ExclusiveRanks(n) <==> ExclusiveRanks(n1)) && c in n1.channels && k in n1.channels[c].body.users &&
            forall r ::
              HoldsOther(n1.channels[c].body, k, r) <==> c in n.channels && HoldsOther(n.channels[c].body, k, r)
  {
    var n1 := Enter(OpenChannel(n, name), k, Lower(name));
    assert forall d :: d in n.channels ==> d in n1.channels && SameRanks(n.channels[d].body, n1.channels[d].body);
    if ExclusiveRanks(n1) {
      forall d | d in n.channels ensures n.channels[d].body.Exclusive() { assert n1.channels[d].body.Exclusive(); }
    }
  }

  // ---------------------------------------------------------------- steps

  /** The ways in which an event may fail one invariant each: a rank given to somebody who is
      no member, a second rank, a channel left empty, a mask set twice, a rank left by somebody
      who goes. */
  datatype Lapses = Lapses(strays: bool, clashes: bool, empties: bool, repeats: bool, orphans: bool)

  /** What an event keeps of each invariant but for its lapses: the state stays coherent in any
      case. */
  ghost predicate KeptBut(n: Net, n': Net, l: Lapses) {
    Coherent(n') &&
    (RanksWithin(n) ==> (RanksWithin(n') <==> !l.strays)) &&
    (ExclusiveRanks(n) ==> (ExclusiveRanks(n') <==> !l.clashes)) &&
    (NoEmptyChannel(n) ==> (NoEmptyChannel(n') <==> !l.empties)) &&
    (NoEmptyChannel(n) && DistinctMasks(n) ==> (DistinctMasks(n') <==> !l.repeats)) &&
    (NoneOrphaned(n) ==> (NoneOrphaned(n') <==> !l.orphans))
  }

  const NO_LAPSE := Lapses(false, false, false, false, false)

  lemma KeepsIsKept(n: Net, n': Net)
    requires Keeps(n, n')
    ensures KeptBut(n, n', NO_LAPSE)
  {}

  lemma MilderIsKept(n: Net, n': Net, empties: bool)
    requires Milder(n, n') && (NoEmptyChannel(n) ==> (NoEmptyChannel(n') <==> !empties))
    ensures KeptBut(n, n', NO_LAPSE.(empties := empties))
  {}

  /** The only local command that leaves an empty channel. */
  predicate Empties(n: Net, cmd: Cmd) { cmd.CKick? && KicksLast(n, cmd.k, cmd.c, cmd.v) }

  /** The only one that leaves a rank to nobody. */
  predicate Orphans(n: Net, cmd: Cmd) { cmd.CQuit? && cmd.k in n.users && RankedOutside(n, cmd.k) }

  /** Every local command keeps the state coherent, ranks within the members, ranks exclusive
      and masks distinct; a channel is left empty exactly by a KICK of its last member, and a
      rank to nobody exactly by a quit of somebody who holds one in a channel it is not in. */
  lemma StepKeeps(n: Net, cmd: Cmd)
    requires Coherent(n) && Step(n, cmd).Some?
    ensures KeptBut(n, Step(n, cmd).value, NO_LAPSE.(empties := Empties(n, cmd), orphans := Orphans(n, cmd)))
  {
    var n' := Step(n, cmd).value;
    if cmd.CKick? {
      KickKeeps(n, cmd.k, cmd.c, cmd.v);
      MilderIsKept(n, n', KicksLast(n, cmd.k, cmd.c, cmd.v));
    } else if cmd.CQuit? && cmd.k in n.users {
      QuitKeeps(n, cmd.k);
    } else {
      OtherStepKeeps(n, cmd);
      KeepsIsKept(n, n');
    }
    hide *;
  }

  lemma OtherStepKeeps(n: Net, cmd: Cmd)
    requires Coherent(n) && Step(n, cmd).Some? && !cmd.CKick? && !(cmd.CQuit? && cmd.k in n.users)
    ensures Keeps(n, Step(n, cmd).value)
  {
    hide Keeps;
    hide Milder;
    hide Coherent;
    hide Quit;
    hide Part;
    hide NickCommand;
    hide Cycle;
    hide JoinAll;
    hide ForceAll;
    hide Mode;
    hide AddUser;
    KeepsSame(n);
    match cmd
    case CNew(u) => AddUserKeeps(n, u.(channels := {}));
    case CNick(k, newnick, s) => if k in n.users { NickKeeps(n, s, k, newnick); }
    case CCycle(k, s) => if k in n.users { CycleKeeps(n, s, k); }
    case CQuit(_) =>
    case CJoin(k, names, policy, args) => if k in n.users { JoinAllKeeps(n, k, names, policy, args, 2); }
    case CPart(k, c) => PartKeeps(n, k, c);
    case CMode(k, c, registered, maxbans, now, modes, params) =>
      ModeKeeps(n, k, c, registered, maxbans, now, modes, params);
    case CService(c, t, r, on) => if c in n.channels && t in n.users { ServiceKeeps(n, c, t, r, on); }
    case CAuto(c, t, noop, autovoice, access) => if c in n.channels { CheckedKeeps(n, t, c, noop, autovoice, access); }
    case CForce(k, t, names, policy) => if t in n.users { ForceAllKeeps(n, t, names, policy); }
    case CForcePart(k, t, c) => PartKeeps(n, t, c);
    case CAway(k, away) => if k in n.users { AmendKeeps(n, k, n.users[k].(away := away)); }
    case CFlag(k, letter, on) => if k in n.users { AmendKeeps(n, k, FlagSet(n.users[k], letter, on)); }
  }

  lemma NickMoveKeeps(n: Net, k: string, newnick: string)
    requires Coherent(n) && k in n.users
    ensures Keeps(n, NickMove(n, k, newnick))
    ensures Lower(newnick) == k || Lower(newnick) !in n.users ==> Lower(newnick) in NickMove(n, k, newnick).users
  {
    KeepsSame(n);
    if Lower(newnick) == k { AmendKeeps(n, k, n.users[k].(nick := newnick)); }
    else if Lower(newnick) !in n.users { RekeyKeeps(n, k, newnick); }
  }

  lemma NickKeeps(n: Net, s: Services, k: string, newnick: string)
    requires Coherent(n) && k in n.users
    ensures Keeps(n, NickCommand(n, s, k, newnick))
  {
    hide Keeps;
    hide Milder;
    hide Coherent;
    hide NickMove;
    hide Cycle;
    hide CheckedIn;
    KeepsSame(n);
    var b, n1 := Lower(newnick), NickMove(n, k, newnick);
    NickMoveKeeps(n, k, newnick);
    StaysCoherent(n, n1);
    if b == k || b !in n.users {
      var n2 := CheckedIn(n1, s, b, n1.users[b].channels);
      CheckedInKeeps(n1, s, b, n1.users[b].channels);
      KeepsTwice(n, n1, n2);
      StaysCoherent(n1, n2);
      CheckedInUsers(n1, s, b, n1.users[b].channels);
      if b != k {
        var u3 := n2.users[b].(cloak := s.cloak(n2.users[b].host), o := s.ircop(newnick));
        var n3 := Amend(n2, b, u3);
        AmendKeeps(n2, b, u3);
        KeepsTwice(n, n2, n3);
        StaysCoherent(n2, n3);
        CycleKeeps(n3, s, b);
        KeepsTwice(n, n3, Cycle(n3, s, b));
      }
    }
  }

  lemma CheckedInUsers(n: Net, s: Services, k: string, done: set<string>)
    requires k in n.users
    ensures CheckedIn(n, s, k, done).users == n.users
  {}

  lemma ServiceKeeps(n: Net, c: string, t: string, r: Rank, on: bool)
    requires Coherent(n) && c in n.channels && t in n.users
    ensures Keeps(n, WithBody(n, c, ServiceRank(Effect(n.channels[c].body, []), t, r, on).chan))
  {
    hide MasksDistinct;
    var e := Effect(n.channels[c].body, []);
    ServiceRankKeeps(e, t, r, on);
    ServedKnown(n.channels[c].body, t, r, on, n.users.Keys);
    RanksChanged(n, c, ServiceRank(e, t, r, on).chan);
  }

  lemma ServedKnown(ch: Chan, t: string, r: Rank, on: bool, table: set<string>)
    requires ch.Known(table) && t in table
    ensures var ch' := ServiceRank(Effect(ch, []), t, r, on).chan;
            ch'.Known(table) && ch'.bans == ch.bans && ch'.pbans == ch.pbans && ch'.orphaned == ch.orphaned
  {}

  // ---------------------------------------------------------------- JOIN and its keys and bans

  predicate QuestionFree(ch: Chan) { AllNoQuestion(ch.bans) && AllNoQuestion(ch.pbans) }

  predicate NoQuestions(n: Net) { forall c :: c in n.channels ==> QuestionFree(n.channels[c].body) }

  /** A keyed channel is reached with every key already used. */
  predicate OutOfKeys(n: Net, k: string, name: string, p: Policy, args: seq<string>, j: nat)
    requires k in n.users
  {
    !TurnedAway(|n.users[k].channels|, name, p) && p.registered && !Barred(n.users[k], p) &&
    p.key != "" && !n.users[k].o && 3 <= |args| <= j
  }

  /** JOIN then takes a word that is not there: the only way it fails where no mask has a `?`. */
  lemma JoinReadsPastKeys(n: Net, k: string, name: string, p: Policy, args: seq<string>, j: nat)
    requires k in n.users && (Lower(name) in n.channels ==> QuestionFree(n.channels[Lower(name)].body))
    ensures JoinOne(n, k, name, p, args, j) == None <==> OutOfKeys(n, k, name, p, args, j)
  {
    if Lower(name) in n.channels { NeverUndefined(n, k, Lower(name), p); }
    hide RefusedIn;
  }

  lemma NeverUndefined(n: Net, k: string, c: string, p: Policy)
    requires k in n.users && c in n.channels && QuestionFree(n.channels[c].body)
    ensures RefusedIn(n.users[k], k, n.channels[c].body, p) != Undefined
  {
    var ch, u := n.channels[c].body, n.users[k];
    ScanDefined(ch.bans, Lower(Userhost(u, u.cloak)));
    ScanDefined(ch.pbans, Lower(Userhost(u, u.cloak)));
    ScanDefined(ch.bans, Lower(Userhost(u, u.vhost)));
    ScanDefined(ch.pbans, Lower(Userhost(u, u.vhost)));
  }

  lemma JoinOneKeepsBans(n: Net, k: string, name: string, p: Policy, args: seq<string>, j: nat)
    requires k in n.users && NoQuestions(n) && JoinOne(n, k, name, p, args, j).Some?
    ensures var n' := JoinOne(n, k, name, p, args, j).value.net; k in n'.users && NoQuestions(n')
  {
    hide RefusedIn;
    hide AllNoQuestion;
    hide CheckModes;
    hide TurnedAway;
    hide Barred;
    NoBansYet();
    if Lower(name) in n.channels {
      CheckedBans(n.channels[Lower(name)].body.(users := n.channels[Lower(name)].body.users + {k}),
                  k, p.noop, p.autovoice, p.access);
    } else {
      CheckedBans(EMPTY.(users := {} + {k}), k, p.noop, p.autovoice, p.access);
    }
  }

  lemma NoBansYet()
    ensures QuestionFree(EMPTY)
  {}

  lemma CheckedBans(ch: Chan, k: string, noop: bool, autovoice: bool, access: nat)
    ensures var ch' := CheckModes(Effect(ch, []), k, noop, autovoice, access).chan;
            ch'.bans == ch.bans && ch'.pbans == ch.pbans
  {}

  /** The whole command fails exactly when, at some name, the names before it have used every
      key word and the channel named wants one. */
  lemma {:induction false} JoinCommandReadsPastKeys(n: Net, k: string, names: seq<string>, policy: string -> Policy,
                                                    args: seq<string>, j: nat)
    requires k in n.users && NoQuestions(n)
    ensures JoinAll(n, k, names, policy, args, j) == None <==>
            exists i :: 0 <= i < |names| && RunsOutAt(n, k, names, policy, args, j, i)
    decreases |names|
  {
    hide JoinOne;
    hide OutOfKeys;
    hide QuestionFree;
    if names != [] {
      var first := JoinOne(n, k, names[0], policy(names[0]), args, j);
      JoinReadsPastKeys(n, k, names[0], policy(names[0]), args, j);
      assert names[..0] == [];
      if first == None {
        assert RunsOutAt(n, k, names, policy, args, j, 0);
      } else {
        JoinOneKeepsBans(n, k, names[0], policy(names[0]), args, j);
        JoinCommandReadsPastKeys(first.value.net, k, names[1..], policy, args, first.value.j);
        forall i | 0 <= i < |names| - 1
          ensures RunsOutAt(first.value.net, k, names[1..], policy, args, first.value.j, i) <==>
                  RunsOutAt(n, k, names, policy, args, j, i + 1)
        {
          assert names[..i + 1][0] == names[0] && names[..i + 1][1..] == names[1..][..i];
        }
        if exists i :: 0 <= i < |names| && RunsOutAt(n, k, names, policy, args, j, i) {
          var i :| 0 <= i < |names| && RunsOutAt(n, k, names, policy, args, j, i);
          assert i > 0;
          assert RunsOutAt(first.value.net, k, names[1..], policy, args, first.value.j, i - 1);
        }
      }
    }
  }

  predicate RunsOutAt(n: Net, k: string, names: seq<string>, policy: string -> Policy, args: seq<string>, j: nat,
                      i: nat)
    requires k in n.users && i < |names|
  {
    match JoinAll(n, k, names[..i], policy, args, j)
    case None => false
    case Some(r) => k in r.net.users && OutOfKeys(r.net, k, names[i], policy(names[i]), args, r.j)
  }

  /** A user banned under its cloak or its virtual host, no IRC operator, is kept out by JOIN if
      and only if the channel is registered or the name is turned away: bans of other channels
      are not consulted. */
  lemma BanKeepsOut(n: Net, k: string, name: string, p: Policy, args: seq<string>, j: nat)
    requires k in n.users && !n.users[k].o && Lower(name) in n.channels
    requires var ch, u := n.channels[Lower(name)].body, n.users[k];
             k !in ch.users && IsBan(ch, Userhost(u, u.cloak)) != Undefined &&
             (IsBan(ch, Userhost(u, u.cloak)) == Yes || IsBan(ch, Userhost(u, u.vhost)) == Yes)
    ensures var r := JoinOne(n, k, name, p, args, j);
            (r.Some? && Lower(name) in r.value.net.channels && k in r.value.net.channels[Lower(name)].body.users) <==>
            !p.registered && !TurnedAway(|n.users[k].channels|, name, p)
  {}

  function Guest(nick: string): UserRec {
    UserRec(nick, "i", "h", "k", "v", "s", 0, false, false, false, false, None, true, {})
  }

  /** alice is the operator of #c and has banned everybody; bob is somewhere else. */
  function AliceAndBob(): Net {
    Net(map["alice" := Guest("alice").(channels := {"#c"}), "bob" := Guest("bob")],
        map["#c" := ChanRec("#c", EMPTY.(users := {"alice"}, ops := {"alice"}, bans := [Ban("*", "alice", 0)]))])
  }

  lemma AliceAndBobAreFine()
    ensures var n := AliceAndBob();
            Graph(n) && NoEmptyChannel(n) && ExclusiveRanks(n) && DistinctMasks(n) && NoneOrphaned(n)
    ensures Lower("alice") == "alice" && Lower("bob") == "bob" && Lower("#c") == "#c"
  {
    var n := AliceAndBob();
    assert Lower("alice") == "alice" && Lower("bob") == "bob" && Lower("#c") == "#c";
    forall x, d ensures Joined(n, x, d) <==> Member(n, x, d) {}
  }

  /** bob is banned from the unregistered #c and gets in. */
  lemma BannedGetsIn(p: Policy)
    requires !p.registered && !TurnedAway(0, "#c", p)
    ensures var n := AliceAndBob();
            IsBan(n.channels["#c"].body, Userhost(n.users["bob"], n.users["bob"].cloak)) == Yes &&
            JoinOne(n, "bob", "#c", p, [], 2).Some? &&
            "bob" in JoinOne(n, "bob", "#c", p, [], 2).value.net.channels["#c"].body.users
  {
    var n := AliceAndBob();
    AliceAndBobAreFine();
    var text := Userhost(n.users["bob"], n.users["bob"].cloak);
    var ch := n.channels["#c"].body;
    assert Lower("*") == "*";
    assert text == "bob!i@k" && Lower(text) == "bob!i@k";
    StarMatches(Lower(text));
    assert BanScan(ch.bans, Lower(text)) == Yes;
    BanKeepsOut(n, "bob", "#c", p, [], 2);
  }
}
